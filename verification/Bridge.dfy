/** The bridge-port table: 1024 slots, appended in the shadow, removed by moving the last entry into the hole
    (esalSaiBridge.cc). */
module Bridge {
  import opened Sai
  import opened PortTable
  import opened Slots

  const BRIDGE_PORT_TABLE_MAXSIZE := 1024

  datatype BridgeMember = BridgeMember(portId: U16, vlanId: U16, portSai: Oid, bridgePortSai: Oid)

  /** The SAI answer to create_bridge_port. */
  datatype CreateReply = Created(oid: Oid) | AlreadyExists | Refused

  type Table = seq<BridgeMember>

  function KeyIndex(s: Table, portSai: Oid, vlanId: U16): (i: nat)
    ensures i <= |s|
    ensures i < |s| ==> s[i].portSai == portSai && s[i].vlanId == vlanId
    ensures forall j :: 0 <= j < i ==> s[j].portSai != portSai || s[j].vlanId != vlanId
  {
    FirstWhere(s, (m: BridgeMember) => m.portSai == portSai && m.vlanId == vlanId)
  }

  function PortIdFor(s: Table, bridgePortSai: Oid): Option<U16> {
    var i := FirstWhere(s, (m: BridgeMember) => m.bridgePortSai == bridgePortSai);
    if i < |s| then Some(s[i].portId) else None
  }

  /** Index of the first entry on the port, or the length. */
  function PortIndex(s: Table, portId: U16): (i: nat)
    ensures i <= |s|
    ensures i < |s| ==> s[i].portId == portId
    ensures forall j :: 0 <= j < i ==> s[j].portId != portId
  {
    FirstWhere(s, (m: BridgeMember) => m.portId == portId)
  }

  function BridgeSaiFor(s: Table, portId: U16): Option<Oid> {
    var i := PortIndex(s, portId);
    if i < |s| then Some(s[i].bridgePortSai) else None
  }

  function BridgeSaiForSai(s: Table, portSai: Oid): Option<Oid> {
    var i := FirstWhere(s, (m: BridgeMember) => m.portSai == portSai);
    if i < |s| then Some(s[i].bridgePortSai) else None
  }

  /** i is the first entry with the property, or there is none and i is the length. */
  ghost predicate FirstIs(s: Table, f: BridgeMember -> bool, i: nat) {
    && i <= |s| && (i < |s| ==> f(s[i]))
    && forall j :: 0 <= j < i ==> !f(s[j])
  }

  /** The three finds answer from the first entry with the key asked for. */
  lemma Lookups(s: Table, x: nat, i: nat)
    ensures FirstIs(s, (m: BridgeMember) => m.bridgePortSai == x, i) ==>
              PortIdFor(s, x) == if i < |s| then Some(s[i].portId) else None
    ensures FirstIs(s, (m: BridgeMember) => m.portSai == x, i) ==>
              BridgeSaiForSai(s, x) == if i < |s| then Some(s[i].bridgePortSai) else None
    ensures x < 0x1_0000 && FirstIs(s, (m: BridgeMember) => m.portId == x, i) ==>
              BridgeSaiFor(s, x) == if i < |s| then Some(s[i].bridgePortSai) else None
  {
    var a := FirstWhere(s, (m: BridgeMember) => m.bridgePortSai == x);
    var b := FirstWhere(s, (m: BridgeMember) => m.portSai == x);
    assert FirstIs(s, (m: BridgeMember) => m.bridgePortSai == x, i) ==> a == i;
    assert FirstIs(s, (m: BridgeMember) => m.portSai == x, i) ==> b == i;
    if x < 0x1_0000 {
      var c := PortIndex(s, x);
      assert FirstIs(s, (m: BridgeMember) => m.portId == x, i) ==> c == i;
    }
  }

  // The steps.

  /** What a create with no duplicate, with room and with SAI's consent stores. `given` is the caller's
      bridge-port handle, kept when SAI says the object exists already. */
  function NewMember(portId: U16, vlanId: U16, portSai: Oid, given: Oid, r: CreateReply): BridgeMember
    requires !r.Refused?
  {
    BridgeMember(portId, vlanId, portSai, if r.Created? then r.oid else given)
  }

  function CreateStep(
      s: Table, ports: seq<PortEntry>, up: bool, portSai: Oid, given: Oid, vlanId: U16, query: bool,
      r: CreateReply): (Table, bool) {
    if !up then (s, false)
    else if KeyIndex(s, portSai, vlanId) < |s| then (s, true)
    else if |s| >= BRIDGE_PORT_TABLE_MAXSIZE || !query || r.Refused? then (s, false)
    else match IdOf(ports, portSai)
      case None => (s, true) // the source returns ESAL_RC_FAIL here, which is 1, that is true
      case Some(id) => (s + [NewMember(id, vlanId, portSai, given, r)], true)
  }

  function RemoveStep(s: Table, portSai: Oid, vlanId: U16, query: bool, removed: bool): (Table, bool) {
    var i := KeyIndex(s, portSai, vlanId);
    if i == |s| then (s, true)
    else if !query || !removed then (s, false)
    else (SwapOut(s, i), true)
  }

  // The invariant.

  ghost predicate UniqueKeys(s: Table) {
    forall i, j :: 0 <= i < j < |s| ==> s[i].portSai != s[j].portSai || s[i].vlanId != s[j].vlanId
  }

  /** Keys are unique, the table fits, and every port id is the low half of its port handle. */
  ghost predicate Inv(s: Table) {
    && UniqueKeys(s) && |s| <= BRIDGE_PORT_TABLE_MAXSIZE
    && forall i :: 0 <= i < |s| ==> s[i].portId == PortIdOf(s[i].portSai)
  }

  /** What a create answers: true when the key is there already, and otherwise exactly when the switch is up, there is
      room and SAI does not refuse, whether or not the port is known. It adds at most one entry: for a known port, with
      the new object's handle, or with the caller's when SAI has the object already. */
  lemma CreateAnswer(
      s: Table, ports: seq<PortEntry>, up: bool, portSai: Oid, given: Oid, vlanId: U16, query: bool, r: CreateReply)
    ensures var (t, ok) := CreateStep(s, ports, up, portSai, given, vlanId, query, r);
            var granted := |s| < BRIDGE_PORT_TABLE_MAXSIZE && query && !r.Refused?;
            && (ok <==> up && (HasKey(s, portSai, vlanId) || granted))
            && (!up || HasKey(s, portSai, vlanId) || !granted || IdOf(ports, portSai).None? ==> t == s)
            && (up && !HasKey(s, portSai, vlanId) && granted && IdOf(ports, portSai).Some? ==>
                  && |t| == |s| + 1 && t[..|s|] == s
                  && t[|s|].portId == IdOf(ports, portSai).value && t[|s|].portSai == portSai && t[|s|].vlanId == vlanId
                  && (r.Created? ==> t[|s|].bridgePortSai == r.oid)
                  && (r.AlreadyExists? ==> t[|s|].bridgePortSai == given))
  {
    var i := KeyIndex(s, portSai, vlanId);
    if i < |s| {
      assert s[i].portSai == portSai && s[i].vlanId == vlanId;
    }
  }

  /** What a removal answers: true exactly when the key is not there, or the removal is granted; a refused one changes
      nothing. */
  lemma RemoveAnswer(s: Table, portSai: Oid, vlanId: U16, query: bool, removed: bool)
    ensures var (t, ok) := RemoveStep(s, portSai, vlanId, query, removed);
            && (ok <==> !HasKey(s, portSai, vlanId) || (query && removed))
            && (!HasKey(s, portSai, vlanId) || !(query && removed) ==> t == s)
            && (HasKey(s, portSai, vlanId) && query && removed ==>
                  t == RemoveStep(s, portSai, vlanId, true, true).0 && |t| == |s| - 1)
  {
    var i := KeyIndex(s, portSai, vlanId);
    if i < |s| {
      assert s[i].portSai == portSai && s[i].vlanId == vlanId;
    }
  }

  lemma CreateInv(
      s: Table, ports: seq<PortEntry>, up: bool, portSai: Oid, given: Oid, vlanId: U16, query: bool, r: CreateReply)
    requires Inv(s) && WellFormed(ports)
    ensures Inv(CreateStep(s, ports, up, portSai, given, vlanId, query, r).0)
  {
    var i := FirstBySai(ports, portSai);
    assert i < |ports| ==> ports[i].portId == PortIdOf(ports[i].portSai);
  }

  lemma RemoveInv(s: Table, portSai: Oid, vlanId: U16, query: bool, removed: bool)
    requires Inv(s)
    ensures Inv(RemoveStep(s, portSai, vlanId, query, removed).0)
  {
  }

  /** A granted removal takes out exactly one entry, the one with the named key. */
  lemma RemoveExact(s: Table, portSai: Oid, vlanId: U16)
    requires HasKey(s, portSai, vlanId)
    ensures var m := s[KeyIndex(s, portSai, vlanId)];
            && m.portSai == portSai && m.vlanId == vlanId
            && multiset(RemoveStep(s, portSai, vlanId, true, true).0) == multiset(s) - multiset{m}
  {
    var i := KeyIndex(s, portSai, vlanId);
    var k :| 0 <= k < |s| && s[k].portSai == portSai && s[k].vlanId == vlanId;
    assert i <= k;
    SwapOutMultiset(s, i);
  }

  ghost predicate HasKey(s: Table, portSai: Oid, vlanId: U16) {
    exists i :: 0 <= i < |s| && s[i].portSai == portSai && s[i].vlanId == vlanId
  }

  /** After a granted removal the key is gone and every other key is still there. */
  lemma RemoveForgetsKey(s: Table, portSai: Oid, vlanId: U16, q: Oid, w: U16)
    requires Inv(s)
    ensures HasKey(RemoveStep(s, portSai, vlanId, true, true).0, q, w)
       <==> HasKey(s, q, w) && (q != portSai || w != vlanId)
  {
    var i := KeyIndex(s, portSai, vlanId);
    if i < |s| {
      SwapOutMembers(s, i);
      var u := SwapOut(s, i);
      if HasKey(u, q, w) {
        var k :| 0 <= k < |u| && u[k].portSai == q && u[k].vlanId == w;
        assert u[k] in u && u[k] in s;
        var j :| 0 <= j < |s| && s[j] == u[k];
        assert j != i;
      }
      if HasKey(s, q, w) && (q != portSai || w != vlanId) {
        var j :| 0 <= j < |s| && s[j].portSai == q && s[j].vlanId == w;
        assert s[j] in s && s[j] in u;
      }
    }
  }

  // Whole runs.

  datatype Op =
    | Create(ports: seq<PortEntry>, up: bool, portSai: Oid, given: Oid, vlanId: U16, query: bool, reply: CreateReply)
    | Remove(portSai: Oid, vlanId: U16, query: bool, removed: bool)

  function Step(s: Table, op: Op): Table {
    match op
    case Create(ports, up, portSai, given, vlanId, query, r) =>
      CreateStep(s, ports, up, portSai, given, vlanId, query, r).0
    case Remove(portSai, vlanId, query, removed) => RemoveStep(s, portSai, vlanId, query, removed).0
  }

  function Run(s: Table, ops: seq<Op>): Table
    decreases ops
  {
    if ops == [] then s else Run(Step(s, ops[0]), ops[1..])
  }

  lemma {:induction false} RunInv(s: Table, ops: seq<Op>)
    requires Inv(s) && forall i :: 0 <= i < |ops| && ops[i].Create? ==> WellFormed(ops[i].ports)
    ensures Inv(Run(s, ops))
    decreases ops
  {
    if ops != [] {
      match ops[0] {
        case Create(ports, up, portSai, given, vlanId, query, r) =>
          CreateInv(s, ports, up, portSai, given, vlanId, query, r);
        case Remove(portSai, vlanId, query, removed) => RemoveInv(s, portSai, vlanId, query, removed);
      }
      RunInv(Step(s, ops[0]), ops[1..]);
    }
  }

  // The bridge-port objects behind the entries.

  /** The live bridge-port objects after a call on table s. */
  function Objects(live: set<Oid>, s: Table, op: Op): set<Oid> {
    match op
    case Create(_, up, portSai, _, vlanId, query, r) =>
      if up && KeyIndex(s, portSai, vlanId) == |s| && |s| < BRIDGE_PORT_TABLE_MAXSIZE && query && r.Created? then
        live + {r.oid}
      else live
    case Remove(portSai, vlanId, query, removed) =>
      var i := KeyIndex(s, portSai, vlanId);
      if i < |s| && query && removed then live - {s[i].bridgePortSai} else live
  }

  function Listed(s: Table): set<Oid> {
    set i | 0 <= i < |s| :: s[i].bridgePortSai
  }

  /** Live objects that no entry names. */
  function Orphans(s: Table, live: set<Oid>): set<Oid> {
    live - Listed(s)
  }

  /** The object a create strands: it was made, and the port's id is then missing. */
  function Stranded(s: Table, op: Op): set<Oid> {
    if op.Create? && IdOf(op.ports, op.portSai).None? then Objects({}, s, op) - Listed(s) else {}
  }

  /** The handle a create enters into the table: one that existed before is an orphan no more. */
  function Entered(s: Table, op: Op): set<Oid> {
    if |Step(s, op)| > |s| then {Step(s, op)[|s|].bridgePortSai} else {}
  }

  lemma StepOrphans(s: Table, live: set<Oid>, op: Op)
    requires op.Create? && op.reply.Created? ==> op.reply.oid !in live
    ensures Orphans(Step(s, op), Objects(live, s, op)) == (Orphans(s, live) + Stranded(s, op)) - Entered(s, op)
  {
    match op
    case Create(_, _, _, _, _, _, _) => ListedAppended(s, Step(s, op));
    case Remove(portSai, vlanId, _, _) =>
      var i := KeyIndex(s, portSai, vlanId);
      if i < |s| { ListedSwapOut(s, i); }
  }

  lemma ListedAppended(s: Table, t: Table)
    requires s <= t && |t| <= |s| + 1
    ensures Listed(t) == Listed(s) + if |t| > |s| then {t[|s|].bridgePortSai} else {}
  {
    forall o ensures o in Listed(t) <==> o in Listed(s) || (|t| > |s| && o == t[|s|].bridgePortSai) {
      if i :| 0 <= i < |s| && s[i].bridgePortSai == o { assert t[i].bridgePortSai == o; }
      if i :| 0 <= i < |t| && t[i].bridgePortSai == o { assert i < |s| ==> s[i].bridgePortSai == o; }
    }
  }

  lemma ListedSwapOut(s: Table, i: nat)
    requires i < |s|
    ensures Listed(s) == Listed(SwapOut(s, i)) + {s[i].bridgePortSai}
  {
    var u, last := SwapOut(s, i), |s| - 1;
    forall o ensures o in Listed(s) <==> o in Listed(u) || o == s[i].bridgePortSai {
      if k :| 0 <= k < |s| && s[k].bridgePortSai == o {
        if k != i { assert u[if k == last then i else k].bridgePortSai == o; }
      }
      if k :| 0 <= k < |u| && u[k].bridgePortSai == o { assert s[if k == i then last else k].bridgePortSai == o; }
    }
  }

  function ObjectsRun(live: set<Oid>, s: Table, ops: seq<Op>): set<Oid>
    decreases ops
  {
    if ops == [] then live else ObjectsRun(Objects(live, s, ops[0]), Step(s, ops[0]), ops[1..])
  }

  function OrphansRun(orphans: set<Oid>, s: Table, ops: seq<Op>): set<Oid>
    decreases ops
  {
    if ops == [] then orphans
    else OrphansRun((orphans + Stranded(s, ops[0])) - Entered(s, ops[0]), Step(s, ops[0]), ops[1..])
  }

  /** Each object created is new. */
  ghost predicate FreshRun(live: set<Oid>, s: Table, ops: seq<Op>)
    decreases ops
  {
    ops == [] ||
    ((ops[0].Create? && ops[0].reply.Created? ==> ops[0].reply.oid !in live) &&
     FreshRun(Objects(live, s, ops[0]), Step(s, ops[0]), ops[1..]))
  }

  /** Over every run the live objects that no entry names are exactly those stranded by a missing port id and not
      entered again since; a removal never leaves one behind. */
  lemma {:induction false} RunOrphans(live: set<Oid>, s: Table, ops: seq<Op>)
    requires FreshRun(live, s, ops)
    ensures Orphans(Run(s, ops), ObjectsRun(live, s, ops)) == OrphansRun(Orphans(s, live), s, ops)
    decreases ops
  {
    if ops != [] {
      StepOrphans(s, live, ops[0]);
      RunOrphans(Objects(live, s, ops[0]), Step(s, ops[0]), ops[1..]);
    }
  }

  // Initialisation from the hardware's port list.

  /** Slots i .. n-1 of the port table, paired with the bridge's own port list. */
  function InitFrom(s: Table, ports: seq<PortEntry>, objs: seq<Oid>, i: nat, n: nat): (Table, bool)
    requires i <= n <= |objs|
    decreases n - i
  {
    if i == n then (s, true)
    else if i >= |ports| || ports[i].portSai == NULL_OID then (s, true) // ESAL_RC_FAIL again, that is true
    else if |s| >= BRIDGE_PORT_TABLE_MAXSIZE then (s, false)
    else match IdOf(ports, ports[i].portSai)
      case None => (s, false)
      case Some(id) => InitFrom(s + [BridgeMember(id, 0, ports[i].portSai, objs[i])], ports, objs, i + 1, n)
  }

  /** What initialisation is for: entry i joins port i with bridge port i. */
  function Paired(ports: seq<PortEntry>, objs: seq<Oid>, n: nat): Table
    requires n <= |ports| && n <= |objs|
  {
    seq(n, i requires 0 <= i < n => BridgeMember(PortIdOf(ports[i].portSai), 0, ports[i].portSai, objs[i]))
  }

  /** Initialisation in general: it pairs the ports before the first null handle, or before the end of the port table,
      and reports success although it stops there. */
  lemma {:induction false} InitStops(ports: seq<PortEntry>, objs: seq<Oid>, i: nat, k: nat, n: nat)
    requires WellFormed(ports) && i <= k <= n <= |objs| && k <= |ports| <= MAX_PORT_TABLE_SIZE
    requires forall j :: 0 <= j < k ==> ports[j].portSai != NULL_OID
    requires k < n ==> k == |ports| || ports[k].portSai == NULL_OID
    ensures InitFrom(Paired(ports, objs, i), ports, objs, i, n) == (Paired(ports, objs, k), true)
    decreases k - i
  {
    if i < k {
      var f := FirstBySai(ports, ports[i].portSai);
      assert f <= i;
      assert ports[f].portId == PortIdOf(ports[f].portSai);
      assert Paired(ports, objs, i + 1)
          == Paired(ports, objs, i) + [BridgeMember(PortIdOf(ports[i].portSai), 0, ports[i].portSai, objs[i])];
      InitStops(ports, objs, i + 1, k, n);
    }
  }

  /** Without null handles every port is paired. */
  lemma InitPairs(ports: seq<PortEntry>, objs: seq<Oid>, i: nat, n: nat)
    requires WellFormed(ports) && i <= n <= |objs| && n <= |ports| <= MAX_PORT_TABLE_SIZE
    requires forall k :: 0 <= k < n ==> ports[k].portSai != NULL_OID
    ensures InitFrom(Paired(ports, objs, i), ports, objs, i, n) == (Paired(ports, objs, n), true)
  {
    InitStops(ports, objs, i, n, n);
  }

  /** The initialised table satisfies the invariant exactly when the port handles are distinct. */
  lemma PairedInv(ports: seq<PortEntry>, objs: seq<Oid>, n: nat)
    requires n <= |ports| <= MAX_PORT_TABLE_SIZE && n <= |objs|
    ensures Inv(Paired(ports, objs, n))
       <==> forall i, j :: 0 <= i < j < n ==> ports[i].portSai != ports[j].portSai
  {
    var s := Paired(ports, objs, n);
    if Inv(s) {
      forall i, j | 0 <= i < j < n ensures ports[i].portSai != ports[j].portSai {
        assert s[i].portSai == ports[i].portSai && s[j].portSai == ports[j].portSai;
      }
    }
  }

  // Warm boot: saved entries are created again on top of whatever initialisation made.

  function RestoreFrom(s: Table, ports: seq<PortEntry>, saved: Table, rs: seq<CreateReply>, n: nat): (Table, bool)
    requires n <= |saved| == |rs|
  {
    if n == 0 then (s, true)
    else
      var (t, ok) := RestoreFrom(s, ports, saved, rs, n - 1);
      var m := saved[n - 1];
      var (u, ok1) := CreateStep(t, ports, true, m.portSai, m.bridgePortSai, m.vlanId, true, rs[n - 1]);
      (u, ok && ok1)
  }

  /** The create commits an entry unless the key is there already. */
  predicate Enters(s: Table, ports: seq<PortEntry>, portSai: Oid, r: CreateReply) {
    |s| < BRIDGE_PORT_TABLE_MAXSIZE && !r.Refused? && IdOf(ports, portSai).Some?
  }

  lemma CreateKeys(
      s: Table, ports: seq<PortEntry>, portSai: Oid, given: Oid, vlanId: U16, r: CreateReply, q: Oid, w: U16)
    ensures var t := CreateStep(s, ports, true, portSai, given, vlanId, true, r).0;
            && s <= t && |t| <= |s| + 1
            && (HasKey(t, q, w) <==>
                  HasKey(s, q, w) || (q == portSai && w == vlanId && Enters(s, ports, portSai, r)))
  {
    var t := CreateStep(s, ports, true, portSai, given, vlanId, true, r).0;
    var i := KeyIndex(s, portSai, vlanId);
    if t != s {
      assert t[|s|].portSai == portSai && t[|s|].vlanId == vlanId;
    }
    if HasKey(s, q, w) {
      var k :| 0 <= k < |s| && s[k].portSai == q && s[k].vlanId == w;
      assert t[k] == s[k];
    }
    if HasKey(t, q, w) {
      var k :| 0 <= k < |t| && t[k].portSai == q && t[k].vlanId == w;
      if k < |s| { assert s[k] == t[k]; }
    }
    if q == portSai && w == vlanId && i < |s| {
      assert s[i].portSai == q && s[i].vlanId == w;
    }
  }

  /** One of the first n saved entries has this key and is committed, or found there, at its turn. */
  ghost predicate Brought(
      s: Table, ports: seq<PortEntry>, saved: Table, rs: seq<CreateReply>, n: nat, q: Oid, w: U16)
    requires n <= |saved| == |rs|
  {
    n > 0 &&
    (Brought(s, ports, saved, rs, n - 1, q, w) ||
     (saved[n - 1].portSai == q && saved[n - 1].vlanId == w &&
      Enters(RestoreFrom(s, ports, saved, rs, n - 1).0, ports, q, rs[n - 1])))
  }

  /** Whatever is refused, unknown or out of room, restoring keeps every entry that is there, and adds exactly the keys
      of the saved entries that can be committed at their turn. */
  lemma {:induction false} RestoreExact(
      s: Table, ports: seq<PortEntry>, saved: Table, rs: seq<CreateReply>, n: nat, q: Oid, w: U16)
    requires n <= |saved| == |rs|
    ensures var t := RestoreFrom(s, ports, saved, rs, n).0;
            && s <= t && |t| <= |s| + n
            && (HasKey(t, q, w) <==> HasKey(s, q, w) || Brought(s, ports, saved, rs, n, q, w))
  {
    if n > 0 {
      RestoreExact(s, ports, saved, rs, n - 1, q, w);
      var m := saved[n - 1];
      var t := RestoreFrom(s, ports, saved, rs, n - 1).0;
      CreateKeys(t, ports, m.portSai, m.bridgePortSai, m.vlanId, rs[n - 1], q, w);
    }
  }

  /** The restore reports success exactly when at each turn the key is there already, or there is room and SAI does not
      refuse, whether or not the port is known. */
  lemma {:induction false} RestoreAnswer(s: Table, ports: seq<PortEntry>, saved: Table, rs: seq<CreateReply>, n: nat)
    requires n <= |saved| == |rs|
    ensures RestoreFrom(s, ports, saved, rs, n).1 <==>
              forall i :: 0 <= i < n ==> TurnOkAt(s, ports, saved, rs, i)
  {
    if n > 0 {
      RestoreAnswer(s, ports, saved, rs, n - 1);
      var before, last := RestoreFrom(s, ports, saved, rs, n - 1), TurnOkAt(s, ports, saved, rs, n - 1);
      TurnAnswer(before.0, ports, saved[n - 1], rs[n - 1]);
      assert RestoreFrom(s, ports, saved, rs, n).1 == (before.1 && last);
    }
  }

  ghost predicate TurnOkAt(s: Table, ports: seq<PortEntry>, saved: Table, rs: seq<CreateReply>, i: nat)
    requires i < |saved| == |rs|
  {
    TurnOk(RestoreFrom(s, ports, saved, rs, i).0, saved[i], rs[i])
  }

  lemma TurnAnswer(t: Table, ports: seq<PortEntry>, m: BridgeMember, r: CreateReply)
    ensures CreateStep(t, ports, true, m.portSai, m.bridgePortSai, m.vlanId, true, r).1 <==> TurnOk(t, m, r)
  {
    CreateAnswer(t, ports, true, m.portSai, m.bridgePortSai, m.vlanId, true, r);
  }

  ghost predicate TurnOk(t: Table, m: BridgeMember, r: CreateReply) {
    HasKey(t, m.portSai, m.vlanId) || (|t| < BRIDGE_PORT_TABLE_MAXSIZE && !r.Refused?)
  }

  /** The entry is what a saved one is brought back as: the same key, the id the port has now, and the new object's
      handle, or the saved handle when SAI has the object already. */
  ghost predicate BackAs(ports: seq<PortEntry>, m: BridgeMember, r: CreateReply, e: BridgeMember) {
    && e.portSai == m.portSai && e.vlanId == m.vlanId && IdOf(ports, m.portSai) == Some(e.portId)
    && match r case Created(oid) => e.bridgePortSai == oid
               case AlreadyExists => e.bridgePortSai == m.bridgePortSai
               case Refused => false
  }

  lemma {:induction false} RestoredEntries(
      s: Table, ports: seq<PortEntry>, saved: Table, rs: seq<CreateReply>, n: nat, k: nat)
    requires n <= |saved| == |rs| && |s| <= k < |RestoreFrom(s, ports, saved, rs, n).0|
    ensures exists i :: 0 <= i < n && BackAs(ports, saved[i], rs[i], RestoreFrom(s, ports, saved, rs, n).0[k])
  {
    if n > 0 {
      var t, m := RestoreFrom(s, ports, saved, rs, n - 1).0, saved[n - 1];
      CreateAnswer(t, ports, true, m.portSai, m.bridgePortSai, m.vlanId, true, rs[n - 1]);
      if k < |t| {
        RestoredEntries(s, ports, saved, rs, n - 1, k);
      } else {
        assert BackAs(ports, m, rs[n - 1], RestoreFrom(s, ports, saved, rs, n).0[k]);
      }
    }
  }

  /** The invariant survives a restore, whatever is refused on the way. */
  lemma {:induction false} RestoreInv(s: Table, ports: seq<PortEntry>, saved: Table, rs: seq<CreateReply>, n: nat)
    requires n <= |saved| == |rs| && Inv(s) && WellFormed(ports)
    ensures Inv(RestoreFrom(s, ports, saved, rs, n).0)
  {
    if n > 0 {
      RestoreInv(s, ports, saved, rs, n - 1);
      var m := saved[n - 1];
      CreateInv(
        RestoreFrom(s, ports, saved, rs, n - 1).0, ports, true, m.portSai, m.bridgePortSai, m.vlanId, true, rs[n - 1]);
    }
  }

  /** There is room for all, every port is known and nothing is refused. */
  ghost predicate AllEnter(s: Table, ports: seq<PortEntry>, saved: Table, rs: seq<CreateReply>, n: nat)
    requires n <= |saved| == |rs|
  {
    && |s| + |saved| <= BRIDGE_PORT_TABLE_MAXSIZE
    && forall i :: 0 <= i < n ==> IdOf(ports, saved[i].portSai).Some? && !rs[i].Refused?
  }

  lemma {:induction false} AllBrought(
      s: Table, ports: seq<PortEntry>, saved: Table, rs: seq<CreateReply>, n: nat, q: Oid, w: U16)
    requires n <= |saved| == |rs| && AllEnter(s, ports, saved, rs, n)
    ensures RestoreFrom(s, ports, saved, rs, n).1
    ensures Brought(s, ports, saved, rs, n, q, w) <==> HasKey(saved[..n], q, w)
  {
    if n > 0 {
      AllBrought(s, ports, saved, rs, n - 1, q, w);
      RestoreExact(s, ports, saved, rs, n - 1, q, w);
      HasKeyPrefix(saved, n, q, w);
    }
  }

  /** With room, known ports and no refusal, restoring keeps every entry that is there and brings back every
      saved key, each once. */
  lemma RestoreKeys(
      s: Table, ports: seq<PortEntry>, saved: Table, rs: seq<CreateReply>, n: nat, q: Oid, w: U16)
    requires n <= |saved| == |rs| && Inv(s) && WellFormed(ports) && AllEnter(s, ports, saved, rs, n)
    ensures var (t, ok) := RestoreFrom(s, ports, saved, rs, n);
            && ok && Inv(t) && s <= t && |t| <= |s| + n
            && (HasKey(t, q, w) <==> HasKey(s, q, w) || HasKey(saved[..n], q, w))
  {
    RestoreInv(s, ports, saved, rs, n);
    RestoreExact(s, ports, saved, rs, n, q, w);
    AllBrought(s, ports, saved, rs, n, q, w);
  }

  lemma HasKeyPrefix(s: Table, n: nat, q: Oid, w: U16)
    requires 0 < n <= |s|
    ensures HasKey(s[..n], q, w) <==> HasKey(s[..n - 1], q, w) || (s[n - 1].portSai == q && s[n - 1].vlanId == w)
  {
    var a, b := s[..n], s[..n - 1];
    assert a == b + [s[n - 1]];
    if HasKey(b, q, w) {
      var k :| 0 <= k < |b| && b[k].portSai == q && b[k].vlanId == w;
      assert a[k] == b[k];
    }
    if s[n - 1].portSai == q && s[n - 1].vlanId == w {
      assert a[n - 1] == s[n - 1];
    }
    if HasKey(a, q, w) {
      var k :| 0 <= k < |a| && a[k].portSai == q && a[k].vlanId == w;
      if k < n - 1 { assert b[k] == a[k]; }
    }
  }

  // The FDB's join through the table.

  /** Entries that share a bridge-port handle share a port id. */
  ghost predicate HandlesAgree(s: Table) {
    forall i, j :: 0 <= i < j < |s| && s[i].bridgePortSai == s[j].bridgePortSai ==> s[i].portId == s[j].portId
  }

  /** No entry before the port's first one carries that entry's bridge-port handle. */
  predicate Unambiguous(s: Table, portId: U16) {
    var i := PortIndex(s, portId);
    i < |s| && forall k :: 0 <= k < i ==> s[k].bridgePortSai != s[i].bridgePortSai
  }

  /** Port number to bridge-port handle and back is the identity exactly when the port is unambiguous. */
  lemma PortIdRoundTrip(s: Table, portId: U16)
    requires BridgeSaiFor(s, portId).Some?
    ensures var back := PortIdFor(s, BridgeSaiFor(s, portId).value);
            back.Some? && (back == Some(portId) <==> Unambiguous(s, portId))
  {
    var i := PortIndex(s, portId);
    var o := s[i].bridgePortSai;
    var k := FirstWhere(s, (m: BridgeMember) => m.bridgePortSai == o);
    assert k <= i;
  }

  /** A table without such sharing has no ambiguous port. */
  lemma AgreeUnambiguous(s: Table, portId: U16)
    requires HandlesAgree(s) && BridgeSaiFor(s, portId).Some?
    ensures Unambiguous(s, portId)
  {
  }

  /** Initialisation from distinct bridge-port handles leaves such a table. */
  lemma PairedAgree(ports: seq<PortEntry>, objs: seq<Oid>, n: nat)
    requires n <= |ports| && n <= |objs| && forall i, j :: 0 <= i < j < n ==> objs[i] != objs[j]
    ensures HandlesAgree(Paired(ports, objs, n))
  {
    var s := Paired(ports, objs, n);
    assert forall i :: 0 <= i < n ==> s[i].bridgePortSai == objs[i];
  }

  const TWO_PORTS := [Appended(1), Appended(2)]

  /** A create that finds the object there already keeps the caller's handle, which another port may hold. */
  const SHARING := [
    Create(TWO_PORTS, true, 1, NULL_OID, 0, true, Created(7)),
    Create(TWO_PORTS, true, 2, 7, 0, true, AlreadyExists)]

  /** An ambiguous port is reachable, and its trip ends at another port. */
  lemma PortIdRoundTripFails()
    ensures WellFormed(TWO_PORTS)
    ensures var s := Run([], SHARING);
            Inv(s) && BridgeSaiFor(s, 2) == Some(7) && !Unambiguous(s, 2) && PortIdFor(s, 7) == Some(1)
  {
    var a, b := BridgeMember(1, 0, 1, 7), BridgeMember(2, 0, 2, 7);
    assert WellFormed(TWO_PORTS);
    assert TWO_PORTS[0].portSai == 1 && TWO_PORTS[1].portSai == 2;
    assert TWO_PORTS[0].portId == 1 && TWO_PORTS[1].portId == 2;
    assert FirstBySai(TWO_PORTS, 1) == 0 && FirstBySai(TWO_PORTS, 2) == 1;
    assert Step([], SHARING[0]) == [a];
    assert Step([a], SHARING[1]) == [a, b];
    assert SHARING[1..][0] == SHARING[1] && SHARING[1..][1..] == [];
    assert Run([a], SHARING[1..]) == Run([a, b], []) == [a, b];
    var s := [a, b];
    assert s[0] == a && s[1] == b;
    assert PortIndex(s, 2) == 1;
    assert FirstWhere(s, (m: BridgeMember) => m.bridgePortSai == 7) == 0;
  }

  class BridgeTable {
    const table: array<BridgeMember>
    var size: nat

    ghost predicate Valid()
      reads this, table
    {
      table.Length == BRIDGE_PORT_TABLE_MAXSIZE && size <= BRIDGE_PORT_TABLE_MAXSIZE
    }

    ghost function Entries(): (s: Table)
      requires Valid()
      reads this, table
      ensures |s| == size
    {
      table[..size]
    }

    constructor ()
      ensures Valid() && Entries() == [] && fresh(table)
    {
      table := new BridgeMember[BRIDGE_PORT_TABLE_MAXSIZE](_ => BridgeMember(0, 0, NULL_OID, NULL_OID));
      size := 0;
    }

    method FindKey(portSai: Oid, vlanId: U16) returns (i: nat)
      requires Valid()
      ensures i == KeyIndex(Entries(), portSai, vlanId)
    {
      i := 0;
      while i < size
        invariant 0 <= i <= size
        invariant forall j :: 0 <= j < i ==> Entries()[j].portSai != portSai || Entries()[j].vlanId != vlanId
      {
        if table[i].portSai == portSai && table[i].vlanId == vlanId {
          assert Entries()[i] == table[i];
          return;
        }
        i := i + 1;
      }
    }

    method FindBridgePortId(bridgePortSai: Oid) returns (r: Option<U16>)
      requires Valid()
      ensures r == PortIdFor(Entries(), bridgePortSai)
    {
      var i := 0;
      while i < size
        invariant 0 <= i <= size
        invariant forall j :: 0 <= j < i ==> Entries()[j].bridgePortSai != bridgePortSai
      {
        if table[i].bridgePortSai == bridgePortSai {
          assert Entries()[i] == table[i];
          return Some(table[i].portId);
        }
        i := i + 1;
      }
      return None;
    }

    method FindBridgePortSaiFromPortId(portId: U16) returns (r: Option<Oid>)
      requires Valid()
      ensures r == BridgeSaiFor(Entries(), portId)
      ensures r.Some? <==> exists i :: 0 <= i < |Entries()| && Entries()[i].portId == portId
    {
      var i := 0;
      while i < size
        invariant 0 <= i <= size
        invariant forall j :: 0 <= j < i ==> Entries()[j].portId != portId
      {
        if table[i].portId == portId {
          assert Entries()[i] == table[i];
          return Some(table[i].bridgePortSai);
        }
        i := i + 1;
      }
      return None;
    }

    method FindBridgePortSaiFromPortSai(portSai: Oid) returns (r: Option<Oid>)
      requires Valid()
      ensures r == BridgeSaiForSai(Entries(), portSai)
    {
      var i := 0;
      while i < size
        invariant 0 <= i <= size
        invariant forall j :: 0 <= j < i ==> Entries()[j].portSai != portSai
      {
        if table[i].portSai == portSai {
          assert Entries()[i] == table[i];
          return Some(table[i].bridgePortSai);
        }
        i := i + 1;
      }
      return None;
    }

    method BridgePortCreate(
        ports: seq<PortEntry>, up: bool, portSai: Oid, given: Oid, vlanId: U16, query: bool, r: CreateReply)
        returns (ok: bool)
      requires Valid()
      modifies this, table
      ensures Valid()
      ensures (Entries(), ok) == CreateStep(old(Entries()), ports, up, portSai, given, vlanId, query, r)
    {
      if !up { return false; }
      var i := FindKey(portSai, vlanId);
      if i < size { return true; }
      if size >= BRIDGE_PORT_TABLE_MAXSIZE || !query || r.Refused? { return false; }
      ghost var s := Entries();
      table[size] := NewMember(table[size].portId, vlanId, portSai, given, r);
      assert Entries() == s;
      var id := IdOf(ports, portSai);
      if id.None? { return true; }
      table[size] := table[size].(portId := id.value);
      size := size + 1;
      assert Entries() == s + [NewMember(id.value, vlanId, portSai, given, r)];
      return true;
    }

    method BridgePortRemove(portSai: Oid, vlanId: U16, query: bool, removed: bool) returns (ok: bool)
      requires Valid()
      modifies this, table
      ensures Valid()
      ensures (Entries(), ok) == RemoveStep(old(Entries()), portSai, vlanId, query, removed)
    {
      var i := FindKey(portSai, vlanId);
      if i == size { return true; }
      if !query || !removed { return false; }
      table[i] := table[size - 1];
      size := size - 1;
      assert Entries() == SwapOut(old(Entries()), i);
      return true;
    }

    /** `list` is the bridge's own port list as SAI reads it, or a refusal. The slot is written before the bound is
        checked: the precondition is what keeps that in range. */
    method BridgePortListInit(ports: seq<PortEntry>, query: bool, list: Option<seq<Oid>>, n: nat) returns (ok: bool)
      requires Valid() && (list.Some? ==> n <= |list.value|) && size + n <= BRIDGE_PORT_TABLE_MAXSIZE
      modifies this, table
      ensures Valid()
      ensures (Entries(), ok) ==
                if query && list.Some? then InitFrom(old(Entries()), ports, list.value, 0, n)
                else (old(Entries()), false)
    {
      if !query || list.None? { return false; }
      var objs := list.value;
      for i := 0 to n
        invariant Valid() && size == old(size) + i
        invariant InitFrom(old(Entries()), ports, objs, 0, n) == InitFrom(Entries(), ports, objs, i, n)
      {
        ghost var s := Entries();
        if i >= |ports| || ports[i].portSai == NULL_OID { return true; }
        table[size] := table[size].(portSai := ports[i].portSai, vlanId := 0, bridgePortSai := objs[i]);
        assert Entries() == s;
        var id := IdOf(ports, ports[i].portSai);
        if id.None? { return false; }
        table[size] := table[size].(portId := id.value);
        assert Entries() == s;
        size := size + 1;
        assert Entries() == s + [BridgeMember(id.value, 0, ports[i].portSai, objs[i])];
      }
      return true;
    }

    method RestoreBridges(ports: seq<PortEntry>, saved: Table, rs: seq<CreateReply>) returns (status: bool)
      requires Valid() && |rs| == |saved|
      modifies this, table
      ensures Valid()
      ensures (Entries(), status) == RestoreFrom(old(Entries()), ports, saved, rs, |saved|)
    {
      status := true;
      for i := 0 to |saved|
        invariant Valid()
        invariant (Entries(), status) == RestoreFrom(old(Entries()), ports, saved, rs, i)
      {
        var ok := BridgePortCreate(ports, true, saved[i].portSai, saved[i].bridgePortSai, saved[i].vlanId, true, rs[i]);
        status := status && ok;
      }
    }
  }
}
