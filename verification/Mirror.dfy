/** The mirror-session replicator: a reference count over hardware mirror sessions and per-port session lists
    (esalSaiMc.cc). */
module Mirror {
  import opened Sai
  import opened PortMap
  import opened PortTable
  import opened Ordered

  datatype McInfo = McInfo(msOid: Oid, portsIn: set<U16>)

  /** mcReplicatorTab, the port handles it resolves, and the hardware: live sessions with their
      monitor port, and the session list programmed on each port handle. */
  datatype State = State(
    rows: map<U16, McInfo>,
    handles: Handles,
    sessions: map<Oid, Oid>,
    lists: map<Oid, seq<Oid>>)

  /** What SAI answers during one call. */
  datatype Reply = Reply(queryMirror: bool, created: Option<Oid>, queryPort: bool, listSet: bool, removed: bool)

  const ALL_OK := Reply(true, None, true, true, true)

  function SessionsOf(rows: map<U16, McInfo>, port: U16): set<Oid> {
    set d | d in rows && port in rows[d].portsIn :: rows[d].msOid
  }

  function ListOf(s: State, portSai: Oid): seq<Oid> {
    if portSai in s.lists then s.lists[portSai] else []
  }

  // The steps, on physical ports.

  /** A session to dst is created and its row starts empty. */
  function Opened(s: State, dst: U16, ms: Oid): State
    requires dst in s.handles
  {
    s.(rows := s.rows[dst := McInfo(ms, {})], sessions := s.sessions[ms := s.handles[dst]])
  }

  function Joined(s: State, src: U16, dst: U16): State
    requires dst in s.rows && src in s.handles
  {
    var row := s.rows[dst];
    s.(rows := s.rows[dst := row.(portsIn := row.portsIn + {src})],
       lists := s.lists[s.handles[src] := Sorted(SessionsOf(s.rows, src)) + [row.msOid]])
  }

  function Left(s: State, src: U16, dst: U16): State
    requires dst in s.rows && src in s.handles
  {
    var row := s.rows[dst];
    s.(rows := s.rows[dst := row.(portsIn := row.portsIn - {src})],
       lists := s.lists[s.handles[src] := Sorted(SessionsOf(s.rows, src) - {row.msOid})])
  }

  function Closed(s: State, dst: U16): State
    requires dst in s.rows
  {
    s.(rows := s.rows - {dst}, sessions := s.sessions - {s.rows[dst].msOid})
  }

  function MirrorStep(s: State, src: U16, dst: U16, r: Reply): (State, int) {
    if dst !in s.rows && (!r.queryMirror || dst !in s.handles) then (s, RC_FAIL)
    else if dst !in s.rows && r.created.None? then (s, RC_OK) // the source returns `false`, which is the OK code
    else
      var s1 := if dst in s.rows then s else Opened(s, dst, r.created.value);
      if src in s1.rows[dst].portsIn then (s1, RC_OK)
      else if !r.queryPort || src !in s.handles || !r.listSet then (s1, RC_FAIL)
      else (Joined(s1, src, dst), RC_OK)
  }

  function UnmirrorStep(s: State, src: U16, dst: U16, r: Reply): (State, int) {
    if dst !in s.rows || src !in s.rows[dst].portsIn then (s, RC_FAIL)
    else if !r.queryPort || src !in s.handles || !r.listSet then (s, RC_FAIL)
    else
      var s1 := Left(s, src, dst);
      if s1.rows[dst].portsIn != {} then (s1, RC_OK)
      else if !r.queryMirror || !r.removed then (s1, RC_FAIL)
      else (Closed(s1, dst), RC_OK)
  }

  // The invariant.

  ghost predicate DupFree(q: seq<Oid>) {
    forall i, j :: 0 <= i < j < |q| ==> q[i] != q[j]
  }

  /** A duplicate-free listing of a set. */
  ghost predicate Lists(q: seq<Oid>, s: set<Oid>) {
    DupFree(q) && forall x :: x in q <==> x in s
  }

  /** Only known ports appear. */
  ghost predicate RowsOk(s: State) {
    && (forall d :: d in s.rows ==> d in s.handles)
    && (forall d, p :: d in s.rows && p in s.rows[d].portsIn ==> p in s.handles)
  }

  /** The live sessions are exactly the rows' handles, each monitoring its row's port. */
  ghost predicate SessionsOk(s: State) {
    && (forall d :: d in s.rows && d in s.handles ==>
          s.rows[d].msOid in s.sessions && s.sessions[s.rows[d].msOid] == s.handles[d])
    && (forall o :: o in s.sessions ==>
          PortIdOf(s.sessions[o]) in s.rows && s.rows[PortIdOf(s.sessions[o])].msOid == o)
  }

  /** Each port's hardware list names exactly the sessions whose row contains the port. */
  ghost predicate ListsOk(s: State) {
    && (forall p :: p in s.handles ==> Lists(ListOf(s, s.handles[p]), SessionsOf(s.rows, p)))
    && (forall o :: o in s.lists ==> PortIdOf(o) in s.handles && s.handles[PortIdOf(o)] == o)
  }

  ghost predicate Inv(s: State) {
    HandlesOk(s.handles) && RowsOk(s) && SessionsOk(s) && ListsOk(s)
  }

  /** Rows never share a session. */
  lemma SessionsDistinct(s: State, d: U16, e: U16)
    requires Inv(s) && d in s.rows && e in s.rows && s.rows[d].msOid == s.rows[e].msOid
    ensures d == e
  {
    assert PortIdOf(s.handles[d]) == d && PortIdOf(s.handles[e]) == e;
  }

  /** A created handle is not one already live. */
  ghost predicate Fresh(s: State, r: Reply) {
    r.created.Some? ==> r.created.value !in s.sessions
  }

  /** Rows that agree on who contains p, under the same handles, give p the same sessions. */
  lemma SameSessions(rows: map<U16, McInfo>, rows': map<U16, McInfo>, p: U16)
    requires forall d :: d in rows && p in rows[d].portsIn ==>
               d in rows' && p in rows'[d].portsIn && rows'[d].msOid == rows[d].msOid
    requires forall d :: d in rows' && p in rows'[d].portsIn ==> d in rows && p in rows[d].portsIn
    ensures SessionsOf(rows', p) == SessionsOf(rows, p)
  {
  }

  lemma OpenedInv(s: State, dst: U16, ms: Oid)
    requires Inv(s) && dst !in s.rows && dst in s.handles && ms !in s.sessions
    ensures Inv(Opened(s, dst, ms))
  {
    var t := Opened(s, dst, ms);
    assert PortIdOf(s.handles[dst]) == dst;
    assert SessionsOk(t);
    forall p: U16 ensures SessionsOf(t.rows, p) == SessionsOf(s.rows, p) {
      SameSessions(s.rows, t.rows, p);
    }
    assert ListsOk(t);
  }

  /** t differs from s in whether dst's row contains src. */
  ghost predicate Toggled(s: State, t: State, src: U16, dst: U16) {
    && dst in s.rows && dst in t.rows && src in s.handles
    && t.handles == s.handles && t.sessions == s.sessions
    && t.rows == s.rows[dst := s.rows[dst].(portsIn := t.rows[dst].portsIn)]
    && t.rows[dst].portsIn - {src} == s.rows[dst].portsIn - {src}
  }

  lemma ToggledRows(s: State, t: State, src: U16, dst: U16, p: U16)
    requires Toggled(s, t, src, dst) && Inv(s)
    ensures p in t.rows[dst].portsIn ==> p in s.handles
    ensures p != src ==> SessionsOf(t.rows, p) == SessionsOf(s.rows, p)
  {
    if p != src {
      assert p in t.rows[dst].portsIn <==> p in t.rows[dst].portsIn - {src};
      assert p in s.rows[dst].portsIn <==> p in s.rows[dst].portsIn - {src};
      SameSessions(s.rows, t.rows, p);
    }
  }

  /** Changing one row's membership of src and reprogramming src's list accordingly. */
  lemma ToggledInv(s: State, t: State, src: U16, dst: U16, list: seq<Oid>)
    requires Inv(s) && Toggled(s, t, src, dst)
    requires t.lists == s.lists[s.handles[src] := list]
    requires Lists(list, SessionsOf(t.rows, src))
    ensures Inv(t)
  {
    forall p: U16
      ensures p in t.rows[dst].portsIn ==> p in s.handles
      ensures p != src ==> SessionsOf(t.rows, p) == SessionsOf(s.rows, p)
    {
      ToggledRows(s, t, src, dst, p);
    }
    assert PortIdOf(s.handles[src]) == src;
    forall p | p in t.handles ensures Lists(ListOf(t, t.handles[p]), SessionsOf(t.rows, p)) {
      if p != src {
        assert PortIdOf(s.handles[p]) == p;
        assert ListOf(t, t.handles[p]) == ListOf(s, s.handles[p]);
      }
    }
    assert ListsOk(t);
    assert RowsOk(t);
    assert SessionsOk(t);
  }

  lemma ToggledSessions(s: State, t: State, src: U16, dst: U16)
    requires Inv(s) && Toggled(s, t, src, dst)
    ensures src in t.rows[dst].portsIn ==> SessionsOf(t.rows, src) == SessionsOf(s.rows, src) + {s.rows[dst].msOid}
    ensures src !in t.rows[dst].portsIn ==> SessionsOf(t.rows, src) == SessionsOf(s.rows, src) - {s.rows[dst].msOid}
  {
    var ms := s.rows[dst].msOid;
    forall d | d in s.rows && d != dst ensures t.rows[d] == s.rows[d] && s.rows[d].msOid != ms {
      if s.rows[d].msOid == ms { SessionsDistinct(s, d, dst); }
    }
    forall o | o != ms ensures o in SessionsOf(t.rows, src) <==> o in SessionsOf(s.rows, src) {
      if o in SessionsOf(t.rows, src) {
        var d :| d in t.rows && src in t.rows[d].portsIn && t.rows[d].msOid == o;
        assert d in s.rows && src in s.rows[d].portsIn && s.rows[d].msOid == o;
      }
      if o in SessionsOf(s.rows, src) {
        var d :| d in s.rows && src in s.rows[d].portsIn && s.rows[d].msOid == o;
        assert d in t.rows && src in t.rows[d].portsIn && t.rows[d].msOid == o;
      }
    }
    assert src in t.rows[dst].portsIn <==> ms in SessionsOf(t.rows, src);
  }

  lemma JoinedInv(s: State, src: U16, dst: U16)
    requires Inv(s) && dst in s.rows && src in s.handles && src !in s.rows[dst].portsIn
    ensures Inv(Joined(s, src, dst))
  {
    var t := Joined(s, src, dst);
    var ms := s.rows[dst].msOid;
    ToggledSessions(s, s, src, dst);
    ToggledSessions(s, t, src, dst);
    assert ms !in SessionsOf(s.rows, src);
    var list := Sorted(SessionsOf(s.rows, src)) + [ms];
    assert Lists(list, SessionsOf(t.rows, src));
    ToggledInv(s, t, src, dst, list);
  }

  lemma LeftInv(s: State, src: U16, dst: U16)
    requires Inv(s) && dst in s.rows && src in s.handles
    ensures Inv(Left(s, src, dst))
  {
    var t := Left(s, src, dst);
    ToggledSessions(s, t, src, dst);
    ToggledInv(s, t, src, dst, Sorted(SessionsOf(s.rows, src) - {s.rows[dst].msOid}));
  }

  /** Once a row is empty no port's hardware list mentions its session: removing it is safe. */
  lemma RemovalSafe(s: State, dst: U16, o: Oid)
    requires Inv(s) && dst in s.rows && s.rows[dst].portsIn == {}
    ensures s.rows[dst].msOid !in ListOf(s, o)
  {
    if o in s.lists {
      var p := PortIdOf(o);
      forall d | d in s.rows && p in s.rows[d].portsIn ensures s.rows[d].msOid != s.rows[dst].msOid {
        if s.rows[d].msOid == s.rows[dst].msOid { SessionsDistinct(s, d, dst); }
      }
      assert Lists(ListOf(s, s.handles[p]), SessionsOf(s.rows, p));
    }
  }

  lemma ClosedInv(s: State, dst: U16)
    requires Inv(s) && dst in s.rows && s.rows[dst].portsIn == {}
    ensures Inv(Closed(s, dst))
  {
    var t := Closed(s, dst);
    forall d | d in t.rows ensures t.rows[d].msOid != s.rows[dst].msOid {
      if s.rows[d].msOid == s.rows[dst].msOid { SessionsDistinct(s, d, dst); }
    }
    forall o | o in t.sessions ensures PortIdOf(t.sessions[o]) in t.rows {
      assert PortIdOf(s.sessions[o]) in s.rows && s.rows[PortIdOf(s.sessions[o])].msOid == o;
    }
    assert SessionsOk(t);
    forall p: U16 ensures SessionsOf(t.rows, p) == SessionsOf(s.rows, p) {
      SameSessions(s.rows, t.rows, p);
    }
    assert ListsOk(t);
  }

  // Whole runs.

  datatype Op =
    | Mirror(src: U16, dst: U16, reply: Reply)
    | Unmirror(src: U16, dst: U16, reply: Reply)
    | AddPort(portSai: Oid)

  function Step(s: State, op: Op): State {
    match op
    case Mirror(src, dst, r) => MirrorStep(s, src, dst, r).0
    case Unmirror(src, dst, r) => UnmirrorStep(s, src, dst, r).0
    case AddPort(portSai) => s.(handles := AddHandle(s.handles, portSai))
  }

  ghost predicate Possible(s: State, op: Op) {
    op.Mirror? ==> Fresh(s, op.reply)
  }

  lemma AddPortInv(s: State, portSai: Oid)
    requires Inv(s)
    ensures Inv(Step(s, AddPort(portSai)))
  {
    var t := Step(s, AddPort(portSai));
    forall p: U16 | p in t.handles
      ensures Lists(ListOf(t, t.handles[p]), SessionsOf(t.rows, p))
    {
      if p !in s.handles {
        assert SessionsOf(s.rows, p) == {};
      }
    }
  }

  lemma MirrorInv(s: State, src: U16, dst: U16, r: Reply)
    requires Inv(s) && Fresh(s, r)
    ensures Inv(MirrorStep(s, src, dst, r).0)
  {
    if dst in s.rows {
      if src !in s.rows[dst].portsIn && src in s.handles {
        JoinedInv(s, src, dst);
      }
    } else if dst in s.handles && r.created.Some? {
      OpenedInv(s, dst, r.created.value);
      if src in s.handles {
        JoinedInv(Opened(s, dst, r.created.value), src, dst);
      }
    }
  }

  lemma UnmirrorInv(s: State, src: U16, dst: U16, r: Reply)
    requires Inv(s)
    ensures Inv(UnmirrorStep(s, src, dst, r).0)
  {
    if dst in s.rows && src in s.handles {
      LeftInv(s, src, dst);
      var s1 := Left(s, src, dst);
      if s1.rows[dst].portsIn == {} {
        ClosedInv(s1, dst);
      }
    }
  }

  lemma StepInv(s: State, op: Op)
    requires Inv(s) && Possible(s, op)
    ensures Inv(Step(s, op))
  {
    match op
    case Mirror(src, dst, r) => MirrorInv(s, src, dst, r);
    case Unmirror(src, dst, r) => UnmirrorInv(s, src, dst, r);
    case AddPort(portSai) => AddPortInv(s, portSai);
  }

  function Run(s: State, ops: seq<Op>): State
    decreases ops
  {
    if ops == [] then s else Run(Step(s, ops[0]), ops[1..])
  }

  ghost predicate PossibleRun(s: State, ops: seq<Op>)
    decreases ops
  {
    ops == [] || (Possible(s, ops[0]) && PossibleRun(Step(s, ops[0]), ops[1..]))
  }

  const EMPTY := State(map[], map[], map[], map[])

  lemma {:induction false} RunInv(s: State, ops: seq<Op>)
    requires Inv(s) && PossibleRun(s, ops)
    ensures Inv(Run(s, ops))
    decreases ops
  {
    if ops != [] {
      StepInv(s, ops[0]);
      RunInv(Step(s, ops[0]), ops[1..]);
    }
  }

  /** After every run from the empty table, whatever SAI refused on the way. */
  lemma RunsAgree(ops: seq<Op>)
    requires PossibleRun(EMPTY, ops)
    ensures Inv(Run(EMPTY, ops))
  {
    RunInv(EMPTY, ops);
  }

  /** An OK from the mirror call means the pair is mirrored, except in exactly one case: the session to a new
      destination could not be created. */
  lemma OkMeansMirrored(s: State, src: U16, dst: U16, r: Reply)
    ensures var (t, rc) := MirrorStep(s, src, dst, r);
            rc == RC_OK ==> ((dst in t.rows && src in t.rows[dst].portsIn) <==> (dst in s.rows || r.created.Some?))
  {
  }

  ghost predicate Mirrored(s: State, p: U16, d: U16) {
    d in s.rows && p in s.rows[d].portsIn
  }

  /** No pair but (src, dst) appears or disappears. */
  ghost predicate OtherPairs(s: State, t: State, src: U16, dst: U16) {
    forall p, d :: p != src || d != dst ==> (Mirrored(s, p, d) <==> Mirrored(t, p, d))
  }

  /** What the mirror call answers, and what the answer means. OK comes exactly of a destination that has a session, or
      can ask for one, together with a pair that is mirrored already, a programming that is granted, or a creation that
      is refused. A failure leaves the pair unmirrored; no other pair is touched either way, and no row goes. */
  lemma MirrorAnswer(s: State, src: U16, dst: U16, r: Reply)
    ensures var (t, rc) := MirrorStep(s, src, dst, r);
            var opens := dst in s.rows || r.created.Some?;
            && (rc == RC_OK || rc == RC_FAIL)
            && (rc == RC_OK <==>
                  && (dst in s.rows || (r.queryMirror && dst in s.handles))
                  && (!opens || Mirrored(s, src, dst) || (r.queryPort && src in s.handles && r.listSet)))
            && (rc == RC_OK && opens ==> Mirrored(t, src, dst))
            && (rc == RC_OK && (!opens || Mirrored(s, src, dst)) ==> t == s)
            && (rc == RC_FAIL ==> !Mirrored(t, src, dst) && t.lists == s.lists)
            && OtherPairs(s, t, src, dst) && s.rows.Keys <= t.rows.Keys
  {
  }

  /** What the unmirror call answers, and what the answer means. OK comes exactly of a mirrored pair whose port can be
      reprogrammed, together with another port left in the row or a granted removal of the session, and then the pair
      is gone, with its row and session if it was the last. A failure either changes nothing, or leaves the row empty
      with its session live. No other pair is touched. */
  lemma UnmirrorAnswer(s: State, src: U16, dst: U16, r: Reply)
    ensures var (t, rc) := UnmirrorStep(s, src, dst, r);
            var able := Mirrored(s, src, dst) && r.queryPort && src in s.handles && r.listSet;
            var last := Mirrored(s, src, dst) && s.rows[dst].portsIn == {src};
            && (rc == RC_OK || rc == RC_FAIL)
            && (rc == RC_OK <==> able && (last ==> r.queryMirror && r.removed))
            && (rc == RC_OK && last ==> dst !in t.rows && s.rows[dst].msOid !in t.sessions)
            && (rc == RC_OK && !last ==> dst in t.rows && t.sessions == s.sessions)
            && (able ==> !Mirrored(t, src, dst)) && (!able ==> t == s)
            && (rc == RC_FAIL && able ==>
                  dst in t.rows && t.rows[dst] == s.rows[dst].(portsIn := {}) && t.sessions == s.sessions)
            && OtherPairs(s, t, src, dst)
  {
    if Mirrored(s, src, dst) {
      assert s.rows[dst].portsIn == {src} <==> s.rows[dst].portsIn - {src} == {};
    }
  }

  lemma SameListing(p: seq<Oid>, q: seq<Oid>, s: set<Oid>)
    requires Lists(p, s) && Lists(q, s)
    ensures multiset(p) == multiset(q)
  {
    OneEach(p);
    OneEach(q);
    forall x ensures multiset(p)[x] == multiset(q)[x] {
      assert x in p <==> x in q;
      assert x in p <==> x in multiset(p);
      assert x in q <==> x in multiset(q);
    }
  }

  lemma {:induction false} OneEach(q: seq<Oid>)
    requires DupFree(q)
    ensures forall x :: multiset(q)[x] <= 1
  {
    if q != [] {
      var front := q[..|q| - 1];
      OneEach(front);
      assert q == front + [q[|q| - 1]];
      assert q[|q| - 1] !in front;
    }
  }

  /** The rows determine every hardware list up to order. */
  lemma RowsFixLists(s: State, v: State, o: Oid)
    requires Inv(s) && Inv(v) && v.handles == s.handles && v.rows == s.rows
    ensures multiset(ListOf(v, o)) == multiset(ListOf(s, o))
  {
    if o in s.lists || o in v.lists {
      var p := PortIdOf(o);
      assert s.handles[p] == o;
      SameListing(ListOf(v, v.handles[p]), ListOf(s, s.handles[p]), SessionsOf(s.rows, p));
    }
  }

  /** Joining and then leaving gives back the same rows. */
  lemma JoinThenLeave(s: State, src: U16, dst: U16)
    requires dst in s.rows && src in s.handles && src !in s.rows[dst].portsIn
    ensures var v := Left(Joined(s, src, dst), src, dst);
            v.rows == s.rows && v.handles == s.handles && v.sessions == s.sessions
  {
    var v := Left(Joined(s, src, dst), src, dst);
    assert v.rows[dst].portsIn == s.rows[dst].portsIn;
  }

  lemma JoinThenLeaveLists(s: State, src: U16, dst: U16, o: Oid)
    requires Inv(s) && dst in s.rows && src in s.handles && src !in s.rows[dst].portsIn
    ensures multiset(ListOf(Left(Joined(s, src, dst), src, dst), o)) == multiset(ListOf(s, o))
  {
    JoinedInv(s, src, dst);
    LeftInv(Joined(s, src, dst), src, dst);
    JoinThenLeave(s, src, dst);
    RowsFixLists(s, Left(Joined(s, src, dst), src, dst), o);
  }

  /** What an all-OK mirror of a new pair followed by an all-OK unmirror comes to. */
  lemma MirrorUnmirrorSteps(s: State, src: U16, dst: U16, ms: Oid)
    requires src in s.handles && dst in s.handles
    requires dst in s.rows ==> src !in s.rows[dst].portsIn
    ensures var s1 := if dst in s.rows then s else Opened(s, dst, ms);
            var (t, rc1) := MirrorStep(s, src, dst, ALL_OK.(created := Some(ms)));
            var (u, rc2) := UnmirrorStep(t, src, dst, ALL_OK);
            && rc1 == rc2 == RC_OK && t == Joined(s1, src, dst)
            && u == if s1.rows[dst].portsIn == {} then Closed(Left(t, src, dst), dst) else Left(t, src, dst)
  {
    var s1 := if dst in s.rows then s else Opened(s, dst, ms);
    JoinThenLeave(s1, src, dst);
  }

  function RoundTrip(s: State, src: U16, dst: U16, ms: Oid): State {
    UnmirrorStep(MirrorStep(s, src, dst, ALL_OK.(created := Some(ms))).0, src, dst, ALL_OK).0
  }

  lemma RoundTripRows(s: State, src: U16, dst: U16, ms: Oid)
    requires src in s.handles && dst in s.handles && ms !in s.sessions
    requires dst in s.rows ==> src !in s.rows[dst].portsIn
    ensures var u := RoundTrip(s, src, dst, ms);
            if dst in s.rows && s.rows[dst].portsIn == {} then dst !in u.rows
            else u.rows == s.rows && u.sessions == s.sessions
  {
    var s1 := if dst in s.rows then s else Opened(s, dst, ms);
    MirrorUnmirrorSteps(s, src, dst, ms);
    JoinThenLeave(s1, src, dst);
    if dst !in s.rows {
      assert Closed(s1, dst).rows == s.rows;
      assert Closed(s1, dst).sessions == s.sessions;
    }
  }

  lemma RoundTripList(s: State, src: U16, dst: U16, ms: Oid, o: Oid)
    requires Inv(s) && src in s.handles && dst in s.handles && ms !in s.sessions
    requires dst in s.rows ==> src !in s.rows[dst].portsIn
    ensures multiset(ListOf(RoundTrip(s, src, dst, ms), o)) == multiset(ListOf(s, o))
  {
    var s1 := if dst in s.rows then s else Opened(s, dst, ms);
    if dst !in s.rows { OpenedInv(s, dst, ms); }
    MirrorUnmirrorSteps(s, src, dst, ms);
    JoinThenLeaveLists(s1, src, dst, o);
  }

  /** Mirroring a new pair and then unmirroring it, with SAI agreeing throughout, succeeds twice and puts every
      hardware list back up to order. It puts the rows and the sessions back exactly when the destination had
      no empty row: an empty row left behind by an earlier failure is cleaned up instead. */
  lemma MirrorThenUnmirror(s: State, src: U16, dst: U16, ms: Oid)
    requires Inv(s) && src in s.handles && dst in s.handles && ms !in s.sessions
    requires dst in s.rows ==> src !in s.rows[dst].portsIn
    ensures var (t, rc1) := MirrorStep(s, src, dst, ALL_OK.(created := Some(ms)));
            rc1 == RC_OK && UnmirrorStep(t, src, dst, ALL_OK).1 == RC_OK
    ensures forall o :: multiset(ListOf(RoundTrip(s, src, dst, ms), o)) == multiset(ListOf(s, o))
    ensures RoundTrip(s, src, dst, ms).rows == s.rows && RoundTrip(s, src, dst, ms).sessions == s.sessions
       <==> (dst in s.rows ==> s.rows[dst].portsIn != {})
  {
    MirrorUnmirrorSteps(s, src, dst, ms);
    forall o ensures multiset(ListOf(RoundTrip(s, src, dst, ms), o)) == multiset(ListOf(s, o)) {
      RoundTripList(s, src, dst, ms, o);
    }
    RoundTripRows(s, src, dst, ms);
  }

  // VendorSetPortEgress: one source towards several destinations.

  /** VendorMirrorPort on logical ports. */
  function MirrorCall(s: State, ports: PortMap, srcL: U16, dstL: U16, r: Reply): (State, int) {
    if srcL !in ports || dstL !in ports then (s, RC_FAIL)
    else MirrorStep(s, Low16(ports[srcL].pPort), Low16(ports[dstL].pPort), r)
  }

  function EgressCalls(s: State, ports: PortMap, p: U16, dsts: seq<U16>, rs: seq<Reply>): (State, int)
    requires |rs| == |dsts|
    decreases dsts
  {
    if dsts == [] then (s, RC_OK)
    else
      var (s1, rc1) := if dsts[0] in s.rows && p in s.rows[dsts[0]].portsIn then (s, RC_OK)
                       else MirrorCall(s, ports, p, dsts[0], rs[0]);
      if rc1 != RC_OK then (s1, RC_FAIL) else EgressCalls(s1, ports, p, dsts[1..], rs[1..])
  }

  /** The map gives each of these logical ports its own number. */
  ghost predicate Identity(ports: PortMap, ls: seq<U16>) {
    forall l :: l in ls && l in ports ==> Low16(ports[l].pPort) == l
  }

  /** Every session creation is granted. */
  ghost predicate Granted(rs: seq<Reply>) {
    forall i :: 0 <= i < |rs| ==> rs[i].created.Some?
  }

  lemma MirrorKeepsPairs(s: State, src: U16, dst: U16, r: Reply, p: U16, d: U16)
    requires Mirrored(s, p, d)
    ensures Mirrored(MirrorStep(s, src, dst, r).0, p, d)
  {
  }

  /** The physical port is handed to VendorMirrorPort as if it were a logical one. Where logical and physical
      numbers coincide, success with every session creation granted means every destination is mirrored;
      pairs mirrored before stay so whatever happens. */
  lemma {:induction false} EgressCovers(
      s: State, ports: PortMap, p: U16, dsts: seq<U16>, rs: seq<Reply>, q: U16, e: U16)
    requires |rs| == |dsts|
    ensures var (t, rc) := EgressCalls(s, ports, p, dsts, rs);
            && (Mirrored(s, q, e) ==> Mirrored(t, q, e))
            && (rc == RC_OK && e in dsts && q == p && Identity(ports, [p] + dsts) && Granted(rs) ==> Mirrored(t, q, e))
    decreases dsts
  {
    if dsts != [] {
      var d := dsts[0];
      var (s1, rc1) := if Mirrored(s, p, d) then (s, RC_OK) else MirrorCall(s, ports, p, d, rs[0]);
      if !Mirrored(s, p, d) && p in ports && d in ports {
        var src, dst := Low16(ports[p].pPort), Low16(ports[d].pPort);
        OkMeansMirrored(s, src, dst, rs[0]);
        if Mirrored(s, q, e) { MirrorKeepsPairs(s, src, dst, rs[0], q, e); }
      }
      if rc1 == RC_OK {
        EgressCovers(s1, ports, p, dsts[1..], rs[1..], q, e);
        assert Granted(rs) ==> Granted(rs[1..]) && rs[0].created.Some?;
        assert Identity(ports, [p] + dsts) ==> Identity(ports, [p] + dsts[1..]) && p in [p] + dsts && d in [p] + dsts;
        assert e in dsts ==> e == d || e in dsts[1..];
      }
    }
  }

  // The driver's code.

  class Replicator {
    const ports: PortMap
    var rows: map<U16, McInfo>
    var handles: Handles
    ghost var sessions: map<Oid, Oid>
    ghost var lists: map<Oid, seq<Oid>>

    ghost function Now(): State
      reads this
    {
      State(rows, handles, sessions, lists)
    }

    constructor (ports: PortMap)
      ensures Now() == EMPTY && this.ports == ports
    {
      this.ports := ports;
      rows, handles, sessions, lists := map[], map[], map[], map[];
    }

    /** getPortMirrorSessionsList: walk the rows, collecting the handle of each one that contains the port. */
    method PortMirrorSessionsList(port: U16) returns (found: set<Oid>)
      ensures found == SessionsOf(rows, port)
    {
      var keys := Sorted(rows.Keys);
      found := {};
      for k := 0 to |keys|
        invariant found == set d | d in keys[..k] && d in rows && port in rows[d].portsIn :: rows[d].msOid
      {
        assert keys[k] in rows;
        assert keys[..k + 1] == keys[..k] + [keys[k]];
        if port in rows[keys[k]].portsIn {
          found := found + {rows[keys[k]].msOid};
        }
      }
      assert keys[..|keys|] == keys;
    }

    method VendorMirrorPort(srcL: U16, dstL: U16, r: Reply) returns (rc: int)
      modifies this
      ensures (Now(), rc) == MirrorCall(old(Now()), ports, srcL, dstL, r)
    {
      if srcL !in ports || dstL !in ports { return RC_FAIL; }
      var src, dst := Low16(ports[srcL].pPort), Low16(ports[dstL].pPort);
      if dst !in rows {
        if !r.queryMirror { return RC_FAIL; }
        if dst !in handles { return RC_FAIL; }
        if r.created.None? { return RC_OK; }
        sessions := sessions[r.created.value := handles[dst]];
        rows := rows[dst := McInfo(r.created.value, {})];
      }
      if src !in rows[dst].portsIn {
        if !r.queryPort { return RC_FAIL; }
        var associated := PortMirrorSessionsList(src);
        var list := Sorted(associated) + [rows[dst].msOid];
        if src !in handles { return RC_FAIL; }
        if !r.listSet { return RC_FAIL; }
        lists := lists[handles[src] := list];
        rows := rows[dst := rows[dst].(portsIn := rows[dst].portsIn + {src})];
      }
      return RC_OK;
    }

    method VendorRemoveMirrorPort(srcL: U16, dstL: U16, r: Reply) returns (rc: int)
      requires Inv(Now())
      modifies this
      ensures srcL !in ports || dstL !in ports ==> rc == RC_FAIL && Now() == old(Now())
      ensures srcL in ports && dstL in ports ==>
                (Now(), rc) == UnmirrorStep(old(Now()), Low16(ports[srcL].pPort), Low16(ports[dstL].pPort), r)
    {
      if srcL !in ports || dstL !in ports { return RC_FAIL; }
      var src, dst := Low16(ports[srcL].pPort), Low16(ports[dstL].pPort);
      if dst !in rows || src !in rows[dst].portsIn { return RC_FAIL; }
      if !r.queryPort { return RC_FAIL; }
      var associated := PortMirrorSessionsList(src);
      var list := Sorted(associated - {rows[dst].msOid});
      if src !in handles { return RC_FAIL; }
      if !r.listSet { return RC_FAIL; }
      lists := lists[handles[src] := list];
      rows := rows[dst := rows[dst].(portsIn := rows[dst].portsIn - {src})];
      assert Now() == Left(old(Now()), src, dst);
      if rows[dst].portsIn == {} {
        if !r.queryMirror { return RC_FAIL; }
        ghost var now := Now();
        LeftInv(old(Now()), src, dst);
        forall o ensures rows[dst].msOid !in ListOf(now, o) { RemovalSafe(now, dst, o); }
        if !r.removed { return RC_FAIL; }
        RemoveSession(rows[dst].msOid);
        rows := rows - {dst};
      }
      return RC_OK;
    }

    method VendorSetPortEgress(lPort: U16, dsts: seq<U16>, rs: seq<Reply>) returns (rc: int)
      requires |rs| == |dsts|
      modifies this
      ensures lPort !in ports ==> rc == RC_FAIL && Now() == old(Now())
      ensures lPort in ports ==> (Now(), rc) == EgressCalls(old(Now()), ports, Low16(ports[lPort].pPort), dsts, rs)
    {
      if lPort !in ports { return RC_FAIL; }
      var p := Low16(ports[lPort].pPort);
      for i := 0 to |dsts|
        invariant EgressCalls(old(Now()), ports, p, dsts, rs) == EgressCalls(Now(), ports, p, dsts[i..], rs[i..])
      {
        assert dsts[i..][1..] == dsts[i + 1..] && rs[i..][1..] == rs[i + 1..];
        if dsts[i] !in rows || p !in rows[dsts[i]].portsIn {
          var retcode := VendorMirrorPort(p, dsts[i], rs[i]);
          if retcode != RC_OK { return RC_FAIL; }
        }
      }
      return RC_OK;
    }

    /** remove_mirror_session, which the hardware must never be asked for while a port references the session. */
    ghost method RemoveSession(ms: Oid)
      requires forall o :: ms !in ListOf(Now(), o)
      modifies this`sessions
      ensures sessions == old(sessions) - {ms}
    {
      sessions := sessions - {ms};
    }
  }
}
