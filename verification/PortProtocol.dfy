/** The mutex-protected writers and lock-free readers of the port table, one shared-memory access at a time
    (esalSaiPort.cc). Any number of threads append and search; accesses are sequentially consistent. */
module PortProtocol {
  import opened Sai
  import opened PortTable

  datatype Cell = Cell(id: U16, sai: Oid)

  /** esalPortTableFindSai searches by id, esalPortTableFindId by handle. */
  datatype Key = ById(id: U16) | BySai(sai: Oid)

  predicate Matches(c: Cell, k: Key) {
    match k
    case ById(id) => c.id == id
    case BySai(sai) => c.sai == sai
  }

  /** The field the search hands back. */
  function Wanted(c: Cell, k: Key): nat {
    match k
    case ById(_) => c.sai
    case BySai(_) => c.id
  }

  datatype Thread =
    | Idle
    | Locked(adding: Oid)       // holds the mutex, size not checked yet
    | Checked(adding: Oid)      // room for one more
    | SaiWritten(adding: Oid)
    | IdWritten(adding: Oid)
    | Bumped(adding: Oid)       // size incremented, mutex still held
    | Scan(key: Key, i: nat)    // about to compare i with the size
    | Compare(key: Key, i: nat) // about to read the key field of slot i
    | Fetch(key: Key, i: nat)   // about to read the wanted field of slot i
    | Found(key: Key, got: nat)
    | Missed(key: Key)
  {
    predicate Writing() {
      Locked? || Checked? || SaiWritten? || IdWritten? || Bumped?
    }

    predicate Reading() {
      Scan? || Compare? || Fetch? || Found? || Missed?
    }
  }

  datatype Action = BeginAdd(sai: Oid) | Refuse | BeginFind(key: Key) | Advance

  datatype State = State(cells: seq<Cell>, size: nat, holder: Option<nat>, threads: seq<Thread>)

  ghost function Init(n: nat): State {
    State(seq(MAX_PORT_TABLE_SIZE, _ => Cell(0, NULL_OID)), 0, None, seq(n, _ => Idle))
  }

  function Go(s: State, t: nat, th: Thread): State
    requires t < |s.threads|
  {
    s.(threads := s.threads[t := th])
  }

  /** One atomic step of thread t, or None when the action is not possible there. */
  function Act(s: State, t: nat, a: Action): Option<State> {
    if t >= |s.threads| then None
    else match (s.threads[t], a)
    case (Idle, BeginAdd(sai)) =>
      if s.holder == None then Some(Go(s, t, Locked(sai)).(holder := Some(t))) else None
    case (Locked(sai), Advance) =>
      if s.size >= MAX_PORT_TABLE_SIZE then Some(Go(s, t, Idle).(holder := None))
      else Some(Go(s, t, Checked(sai)))
    case (Checked(_), Refuse) => // the SAI query failed
      Some(Go(s, t, Idle).(holder := None))
    case (Checked(sai), Advance) =>
      if s.size >= |s.cells| then None
      else Some(Go(s, t, SaiWritten(sai)).(cells := s.cells[s.size := s.cells[s.size].(sai := sai)]))
    case (SaiWritten(sai), Advance) =>
      if s.size >= |s.cells| then None
      else Some(Go(s, t, IdWritten(sai)).(cells := s.cells[s.size := s.cells[s.size].(id := PortIdOf(sai))]))
    case (IdWritten(sai), Advance) =>
      Some(Go(s, t, Bumped(sai)).(size := s.size + 1))
    case (Bumped(_), Advance) =>
      Some(Go(s, t, Idle).(holder := None))
    case (Idle, BeginFind(k)) =>
      Some(Go(s, t, Scan(k, 0)))
    case (Scan(k, i), Advance) =>
      Some(Go(s, t, if i < s.size then Compare(k, i) else Missed(k)))
    case (Compare(k, i), Advance) =>
      if i >= |s.cells| then None
      else Some(Go(s, t, if Matches(s.cells[i], k) then Fetch(k, i) else Scan(k, i + 1)))
    case (Fetch(k, i), Advance) =>
      if i >= |s.cells| then None
      else Some(Go(s, t, Found(k, Wanted(s.cells[i], k))))
    case (Found(_, _), Advance) => Some(Go(s, t, Idle))
    case (Missed(_), Advance) => Some(Go(s, t, Idle))
    case _ => None
  }

  // The specification: a list that only grows, and a search that sees all of it at once.

  ghost function Committed(s: State): seq<Cell> {
    if s.size <= |s.cells| then s.cells[..s.size] else s.cells
  }

  ghost function Lookup(c: seq<Cell>, k: Key): Option<nat> {
    if c == [] then None
    else if Matches(c[0], k) then Some(Wanted(c[0], k))
    else Lookup(c[1..], k)
  }

  ghost predicate NoMatch(c: seq<Cell>, k: Key, n: nat) {
    n <= |c| && forall j :: 0 <= j < n ==> !Matches(c[j], k)
  }

  lemma {:induction false} LookupFirst(c: seq<Cell>, k: Key, i: nat)
    requires NoMatch(c, k, i)
    ensures i == |c| ==> Lookup(c, k) == None
    ensures i < |c| && Matches(c[i], k) ==> Lookup(c, k) == Some(Wanted(c[i], k))
    decreases i
  {
    if i > 0 {
      assert !Matches(c[0], k);
      assert forall j :: 0 <= j < i - 1 ==> c[1..][j] == c[j + 1];
      LookupFirst(c[1..], k, i - 1);
    }
  }

  /** What was found stays found, with the same answer, as the list grows. */
  lemma {:induction false} LookupGrows(c: seq<Cell>, d: seq<Cell>, k: Key)
    requires c <= d && Lookup(c, k).Some?
    ensures Lookup(d, k) == Lookup(c, k)
  {
    if !Matches(c[0], k) {
      LookupGrows(c[1..], d[1..], k);
    }
  }

  ghost function Cells(s: seq<PortEntry>): seq<Cell> {
    seq(|s|, i requires 0 <= i < |s| => Cell(s[i].portId, s[i].portSai))
  }

  /** The one-shot scans of the sequential table compute the same answers. */
  lemma ScansAgree(s: seq<PortEntry>, p: U16, sai: Oid)
    ensures SaiOf(s, p) == Lookup(Cells(s), ById(p))
    ensures IdOf(s, sai) == Lookup(Cells(s), BySai(sai))
  {
    LookupFirst(Cells(s), ById(p), FirstById(s, p));
    LookupFirst(Cells(s), BySai(sai), FirstBySai(s, sai));
  }

  ghost predicate ThreadOk(s: State, th: Thread)
    requires |s.cells| == MAX_PORT_TABLE_SIZE
  {
    match th
    case Idle | Locked(_) | Missed(_) => true
    case Checked(_) => s.size < MAX_PORT_TABLE_SIZE
    case SaiWritten(sai) => s.size < MAX_PORT_TABLE_SIZE && s.cells[s.size].sai == sai
    case IdWritten(sai) => s.size < MAX_PORT_TABLE_SIZE && s.cells[s.size] == Cell(PortIdOf(sai), sai)
    case Bumped(_) => true
    case Scan(k, i) => NoMatch(Committed(s), k, i)
    case Compare(k, i) => i < s.size && NoMatch(Committed(s), k, i)
    case Fetch(k, i) => i < s.size && i < |s.cells| && NoMatch(Committed(s), k, i) && Matches(s.cells[i], k)
    case Found(k, got) => Lookup(Committed(s), k) == Some(got)
  }

  ghost predicate Inv(s: State) {
    && |s.cells| == MAX_PORT_TABLE_SIZE && s.size <= MAX_PORT_TABLE_SIZE
    && (forall i :: 0 <= i < s.size ==> s.cells[i].id == PortIdOf(s.cells[i].sai))
    && (forall t :: 0 <= t < |s.threads| ==> (s.threads[t].Writing() <==> s.holder == Some(t)))
    && (forall t :: 0 <= t < |s.threads| ==> ThreadOk(s, s.threads[t]))
  }

  /** Growth by one committed cell, or no change, keeps every claim a reader relies on. */
  lemma ReaderStable(s: State, s': State, th: Thread)
    requires Inv(s) && ThreadOk(s, th) && !th.Writing()
    requires |s'.cells| == MAX_PORT_TABLE_SIZE && s.size <= s'.size <= MAX_PORT_TABLE_SIZE
    requires s'.cells[..s.size] == s.cells[..s.size]
    ensures ThreadOk(s', th)
  {
    assert Committed(s) == s.cells[..s.size];
    assert Committed(s') == s'.cells[..s'.size];
    assert forall j :: 0 <= j < s.size ==> s'.cells[j] == s'.cells[..s.size][j] == s.cells[j];
    assert Committed(s) <= Committed(s');
    if th.Found? {
      LookupGrows(Committed(s), Committed(s'), th.key);
    }
  }

  /** The cells a step commits. */
  ghost function Commit(s: State, t: nat, a: Action): seq<Cell> {
    if t < |s.threads| && s.threads[t].IdWritten? && a == Advance
    then [Cell(PortIdOf(s.threads[t].adding), s.threads[t].adding)] else []
  }

  /** Memory: a step changes the shadow slot, or the size by one, and nothing below the size. */
  lemma StepMemory(s: State, t: nat, a: Action, s': State)
    requires Inv(s) && Act(s, t, a) == Some(s')
    ensures |s'.cells| == MAX_PORT_TABLE_SIZE && s.size <= s'.size <= MAX_PORT_TABLE_SIZE
    ensures s'.cells[..s.size] == s.cells[..s.size]
    ensures Committed(s') == Committed(s) + Commit(s, t, a)
    ensures forall i :: 0 <= i < s'.size ==> s'.cells[i].id == PortIdOf(s'.cells[i].sai)
  {
    assert ThreadOk(s, s.threads[t]);
    assert s'.cells[..s.size] == s.cells[..s.size];
    assert forall j :: 0 <= j < s.size ==> s'.cells[j] == s'.cells[..s.size][j] == s.cells[j];
    if s.threads[t].IdWritten? {
      assert s'.cells[..s'.size] == s.cells[..s.size] + [s.cells[s.size]];
    }
  }

  /** Control: only t moves, and the mutex is held by the one writing thread. */
  lemma StepControl(s: State, t: nat, a: Action, s': State)
    requires Inv(s) && Act(s, t, a) == Some(s')
    ensures |s'.threads| == |s.threads| && t < |s.threads|
    ensures forall u :: 0 <= u < |s.threads| && u != t ==> s'.threads[u] == s.threads[u]
    ensures forall u :: 0 <= u < |s'.threads| ==> (s'.threads[u].Writing() <==> s'.holder == Some(u))
  {
    assert s.threads[t].Writing() <==> s.holder == Some(t);
  }

  /** The moving thread's own claim. */
  lemma StepOwn(s: State, t: nat, a: Action, s': State)
    requires Inv(s) && Act(s, t, a) == Some(s') && |s'.cells| == MAX_PORT_TABLE_SIZE
    ensures ThreadOk(s', s'.threads[t])
  {
    var th, th' := s.threads[t], s'.threads[t];
    assert ThreadOk(s, th);
    if th'.Reading() {
      assert Committed(s') == Committed(s);
      if th.Compare? || th.Fetch? {
        assert s.cells[th.i] == Committed(s)[th.i];
        LookupFirst(Committed(s), th.key, th.i);
      }
    }
  }

  /** Every step either leaves the committed list alone or, when a writer bumps the size, appends exactly that
      writer's pair; and the invariant survives. */
  lemma StepSafe(s: State, t: nat, a: Action, s': State)
    requires Inv(s) && Act(s, t, a) == Some(s')
    ensures Inv(s')
    ensures Committed(s') == Committed(s) + Commit(s, t, a)
  {
    StepMemory(s, t, a, s');
    StepControl(s, t, a, s');
    forall u | 0 <= u < |s'.threads| ensures ThreadOk(s', s'.threads[u]) {
      if u == t {
        StepOwn(s, t, a, s');
      } else {
        assert ThreadOk(s, s.threads[u]);
        if !s.threads[u].Writing() {
          ReaderStable(s, s', s.threads[u]);
        } else {
          assert s.holder == Some(u) && !s.threads[t].Writing();
          assert s'.cells == s.cells && s'.size == s.size;
        }
      }
    }
  }

  /** A search answers at one instant: when it gives up the whole committed list holds no match, and when it
      reads the wanted field that field is the committed list's answer. */
  lemma SearchIsAtomic(s: State, t: nat, s': State)
    requires Inv(s) && Act(s, t, Advance) == Some(s')
    ensures s.threads[t].Scan? && s'.threads[t].Missed? ==> Lookup(Committed(s), s.threads[t].key) == None
    ensures s.threads[t].Fetch? ==>
              s'.threads[t].Found? && Lookup(Committed(s), s.threads[t].key) == Some(s'.threads[t].got)
  {
    var th := s.threads[t];
    if th.Scan? || th.Fetch? {
      LookupFirst(Committed(s), th.key, th.i);
    }
  }

  // Whole runs.

  /** trace[i+1] is trace[i] after step acts[i], starting from n idle threads and an empty table. */
  ghost predicate Run(n: nat, trace: seq<State>, acts: seq<(nat, Action)>) {
    && |trace| == |acts| + 1 && trace[0] == Init(n)
    && forall i :: 0 <= i < |acts| ==> Act(trace[i], acts[i].0, acts[i].1) == Some(trace[i + 1])
  }

  lemma {:induction false} RunSafe(n: nat, trace: seq<State>, acts: seq<(nat, Action)>, b: nat)
    requires Run(n, trace, acts) && b < |trace|
    ensures Inv(trace[b]) && trace[b].size <= MAX_PORT_TABLE_SIZE
    decreases b
  {
    if b > 0 {
      RunSafe(n, trace, acts, b - 1);
      StepSafe(trace[b - 1], acts[b - 1].0, acts[b - 1].1, trace[b]);
    }
  }

  /** The pairs committed by steps a .. b-1, in order. */
  ghost function Commits(trace: seq<State>, acts: seq<(nat, Action)>, a: nat, b: nat): seq<Cell>
    requires a <= b < |trace| && |trace| == |acts| + 1
  {
    if a == b then [] else Commits(trace, acts, a, b - 1) + Commit(trace[b - 1], acts[b - 1].0, acts[b - 1].1)
  }

  lemma Regroup(x: seq<Cell>, y: seq<Cell>, z: seq<Cell>)
    ensures (x + y) + z == x + (y + z)
  {
  }

  lemma RunCommits(n: nat, trace: seq<State>, acts: seq<(nat, Action)>, b: nat)
    requires Run(n, trace, acts) && b < |acts|
    ensures Committed(trace[b + 1]) == Committed(trace[b]) + Commit(trace[b], acts[b].0, acts[b].1)
  {
    RunSafe(n, trace, acts, b);
    StepSafe(trace[b], acts[b].0, acts[b].1, trace[b + 1]);
  }

  /** Lists that grow by each step's commit grow by all of them. */
  lemma {:induction false} Telescope(
      tables: seq<seq<Cell>>, trace: seq<State>, acts: seq<(nat, Action)>, a: nat, b: nat)
    requires |tables| == |trace| == |acts| + 1 && a <= b < |trace|
    requires forall i :: a <= i < b ==> tables[i + 1] == tables[i] + Commit(trace[i], acts[i].0, acts[i].1)
    ensures tables[b] == tables[a] + Commits(trace, acts, a, b)
    decreases b
  {
    if a < b {
      Telescope(tables, trace, acts, a, b - 1);
      Regroup(tables[a], Commits(trace, acts, a, b - 1), Commit(trace[b - 1], acts[b - 1].0, acts[b - 1].1));
    }
  }

  /** No append is lost, reordered or altered: the table after b steps is the table after a steps followed by
      exactly the pairs committed in between. */
  lemma NoAppendLost(n: nat, trace: seq<State>, acts: seq<(nat, Action)>, a: nat, b: nat)
    requires Run(n, trace, acts) && a <= b < |trace|
    ensures Committed(trace[b]) == Committed(trace[a]) + Commits(trace, acts, a, b)
  {
    var tables := seq(|trace|, i requires 0 <= i < |trace| => Committed(trace[i]));
    forall i | a <= i < b ensures tables[i + 1] == tables[i] + Commit(trace[i], acts[i].0, acts[i].1) {
      RunCommits(n, trace, acts, i);
    }
    Telescope(tables, trace, acts, a, b);
  }

  /** Thread t starts a search for k at step a and has not returned by state b. */
  ghost predicate Searching(trace: seq<State>, acts: seq<(nat, Action)>, t: nat, k: Key, a: nat, b: nat) {
    && |trace| == |acts| + 1 && a < b < |trace| && acts[a] == (t, BeginFind(k))
    && forall j :: a < j <= b ==> t < |trace[j].threads| && trace[j].threads[t].Reading()
  }

  /** What a search for k may have concluded, given the list `before` that was committed when it began. */
  ghost predicate Concluded(s: State, th: Thread, k: Key, before: seq<Cell>) {
    && th.Reading() && th.key == k
    && (th.Missed? ==> Lookup(before, k) == None)
    && (th.Found? ==>
          && Lookup(Committed(s), k) == Some(th.got)
          && (Lookup(before, k).Some? ==> Lookup(before, k) == Some(th.got)))
  }

  lemma ConcludedStep(s: State, t: nat, u: nat, a: Action, s': State, k: Key, before: seq<Cell>)
    requires Inv(s) && Act(s, u, a) == Some(s')
    requires t < |s.threads| && s'.threads[t].Reading()
    requires before <= Committed(s)
    requires Concluded(s, s.threads[t], k, before)
    ensures Concluded(s', s'.threads[t], k, before)
  {
    StepSafe(s, u, a, s');
    if Lookup(before, k).Some? {
      LookupGrows(before, Committed(s), k);
    }
    if u == t {
      SearchIsAtomic(s, t, s');
    } else if s.threads[t].Found? {
      LookupGrows(Committed(s), Committed(s'), k);
    }
  }

  /** In every interleaving, a search that fails had no such key committed when it began, and one that succeeds
      returns the field of the first committed slot with that key. A key committed before the search began
      is found with the answer it had then. */
  lemma {:induction false} SearchLinearizes(
      n: nat, trace: seq<State>, acts: seq<(nat, Action)>, t: nat, k: Key, a: nat, b: nat)
    requires Run(n, trace, acts) && Searching(trace, acts, t, k, a, b)
    ensures Concluded(trace[b], trace[b].threads[t], k, Committed(trace[a]))
    decreases b
  {
    var s, s' := trace[b - 1], trace[b];
    assert Act(s, acts[b - 1].0, acts[b - 1].1) == Some(s');
    if a < b - 1 {
      RunSafe(n, trace, acts, b - 1);
      NoAppendLost(n, trace, acts, a, b - 1);
      SearchLinearizes(n, trace, acts, t, k, a, b - 1);
      ConcludedStep(s, t, acts[b - 1].0, acts[b - 1].1, s', k, Committed(trace[a]));
    }
  }
}
