/** VLAN translation: one record per translation, two ACL entries in hardware per record (esalSaiAcl.cc). */
module Acl {
  import opened Sai
  import opened PortMap
  import opened PortTable
  import opened Slots

  datatype Stage = Ingress | Egress

  datatype Trans = Trans(oldVlan: U16, newVlan: U16)

  /** portVlanTransMap. */
  datatype Record = Record(portId: U16, trans: Trans, attrSai: Oid, attrSaiV6: Oid)

  datatype Field = InPorts | OutPorts

  /** What a table's packets are: IPv6, or the rest. */
  datatype Family = NotIpv6 | Ipv6

  /** An ACL entry in hardware. */
  datatype Entry = Entry(table: Oid, field: Field, portSai: Oid, trans: Trans)

  /** One direction: its records, its two cached table handles, and its share of the hardware. */
  datatype State = State(
    recs: seq<Record>,
    table: Oid,
    tableV6: Oid,
    tables: map<Oid, Family>,
    entries: map<Oid, Entry>)

  const EMPTY := State([], NULL_OID, NULL_OID, map[], map[])

  /** What SAI answers during one set call. `junk` is what an ingress record's second handle happens to hold,
      since that field is never assigned. */
  datatype Reply = Reply(
    query: bool,
    table: Option<Oid>,
    tableV6: Option<Oid>,
    entry: Option<Oid>,
    entryV6: Option<Oid>,
    junk: Oid)

  // The steps.

  /** Both tables are created together unless both are cached. */
  function Tabled(s: State, r: Reply): (State, bool) {
    if s.table != NULL_OID && s.tableV6 != NULL_OID then (s, true)
    else if r.table.None? then (s, false)
    else
      var t := s.(table := r.table.value, tables := s.tables[r.table.value := NotIpv6]);
      if r.tableV6.None? then (t, false)
      else (t.(tableV6 := r.tableV6.value, tables := t.tables[r.tableV6.value := Ipv6]), true)
  }

  function FirstEntry(stage: Stage, s: State, portSai: Oid, tr: Trans): Entry {
    Entry(s.table, if stage.Egress? then OutPorts else InPorts, portSai, tr)
  }

  function SecondEntry(s: State, portSai: Oid, tr: Trans): Entry {
    Entry(s.tableV6, InPorts, portSai, tr)
  }

  function NewRecord(stage: Stage, p: U16, tr: Trans, entry: Oid, entryV6: Oid, junk: Oid): Record {
    if stage.Egress? then Record(p, tr, entry, entryV6) else Record(p, tr, entryV6, junk)
  }

  /** A refused second entry leaves the first one behind. */
  function Entered(stage: Stage, s: State, p: U16, portSai: Oid, tr: Trans, r: Reply): (State, int) {
    if r.entry.None? then (s, RC_FAIL)
    else
      var t := s.(entries := s.entries[r.entry.value := FirstEntry(stage, s, portSai, tr)]);
      if r.entryV6.None? then (t, RC_FAIL)
      else
        (t.(entries := t.entries[r.entryV6.value := SecondEntry(s, portSai, tr)],
            recs := t.recs + [NewRecord(stage, p, tr, r.entry.value, r.entryV6.value, r.junk)]), RC_OK)
  }

  /** A port without a handle is reported as success and records nothing. */
  function SetStep(
      stage: Stage, ports: PortMap, handles: Handles, s: State, lPort: U16, tr: Trans, r: Reply): (State, int) {
    if lPort !in ports then (s, RC_FAIL)
    else
      var p := Low16(ports[lPort].pPort);
      if p !in handles then (s, RC_OK)
      else if !r.query then (s, RC_FAIL)
      else
        var (t, ok) := Tabled(s, r);
        if !ok then (t, RC_FAIL) else Entered(stage, t, p, handles[p], tr, r)
  }

  predicate Names(e: Record, p: U32, tr: Trans) {
    e.portId == p && e.trans == tr
  }

  function IndexOf(recs: seq<Record>, p: U32, tr: Trans): (i: nat)
    ensures i <= |recs|
    ensures i < |recs| ==> Names(recs[i], p, tr)
    ensures forall j :: 0 <= j < i ==> !Names(recs[j], p, tr)
  {
    FirstWhere(recs, (e: Record) => Names(e, p, tr))
  }

  function Erased(recs: seq<Record>, i: nat): seq<Record>
    requires i < |recs|
  {
    recs[..i] + recs[i + 1..]
  }

  /** The handles a delete of e takes out of the hardware. */
  function Gone(e: Record, removed: bool, removedV6: bool): set<Oid> {
    (if removed then {e.attrSai} else {}) + (if removedV6 then {e.attrSaiV6} else {})
  }

  /** Refused removals are not reported and the record is forgotten all the same. */
  function DeleteStep(ports: PortMap, s: State, lPort: U16, tr: Trans, removed: bool, removedV6: bool): (State, int) {
    if lPort !in ports then (s, RC_FAIL)
    else
      var i := IndexOf(s.recs, ports[lPort].pPort, tr);
      if i == |s.recs| then (s, RC_OK)
      else (s.(recs := Erased(s.recs, i), entries := s.entries - Gone(s.recs[i], removed, removedV6)), RC_OK)
  }

  // Ownership, on the egress side.

  function Owned(recs: seq<Record>): set<Oid> {
    if recs == [] then {} else {recs[0].attrSai, recs[0].attrSaiV6} + Owned(recs[1..])
  }

  /** Live entries no record owns. */
  function Orphans(s: State): set<Oid> {
    s.entries.Keys - Owned(s.recs)
  }

  predicate CarriesOut(s: State, x: Entry, family: Family, field: Field, portSai: Oid, tr: Trans) {
    x == Entry(x.table, field, portSai, tr) && x.table in s.tables && s.tables[x.table] == family
  }

  /** The record's two handles are different live entries that carry out its translation on its port, one in a
      table for IPv6 packets and one in a table for the rest. */
  ghost predicate Backed(handles: Handles, s: State, e: Record) {
    && e.portId in handles && e.attrSai != e.attrSaiV6
    && e.attrSai in s.entries && e.attrSaiV6 in s.entries
    && CarriesOut(s, s.entries[e.attrSai], NotIpv6, OutPorts, handles[e.portId], e.trans)
    && CarriesOut(s, s.entries[e.attrSaiV6], Ipv6, InPorts, handles[e.portId], e.trans)
  }

  predicate Apart(a: Record, b: Record) {
    a.attrSai != b.attrSai && a.attrSai != b.attrSaiV6 && a.attrSaiV6 != b.attrSai && a.attrSaiV6 != b.attrSaiV6
  }

  ghost predicate TablesOk(s: State) {
    && (s.table != NULL_OID ==> s.table in s.tables && s.tables[s.table] == NotIpv6)
    && (s.tableV6 != NULL_OID ==> s.tableV6 in s.tables && s.tables[s.tableV6] == Ipv6)
    && (forall o :: o in s.entries ==> s.entries[o].table in s.tables)
  }

  /** Every record owns two live entries, no handle is owned twice, and every entry sits in a live table. */
  ghost predicate Inv(handles: Handles, s: State) {
    && TablesOk(s)
    && (forall i :: 0 <= i < |s.recs| ==> Backed(handles, s, s.recs[i]))
    && (forall i, j :: 0 <= i < j < |s.recs| ==> Apart(s.recs[i], s.recs[j]))
  }

  ghost predicate FreshEntries(s: State, r: Reply) {
    && (r.entry.Some? ==> r.entry.value !in s.entries)
    && (r.entryV6.Some? ==> r.entryV6.value !in s.entries)
    && (r.entry.Some? && r.entryV6.Some? ==> r.entry.value != r.entryV6.value)
  }

  /** Handles that SAI creates are new, and tables' are not null. */
  ghost predicate Fresh(s: State, r: Reply) {
    && FreshEntries(s, r)
    && (r.table.Some? ==> r.table.value !in s.tables && r.table.value != NULL_OID)
    && (r.tableV6.Some? ==> r.tableV6.value !in s.tables && r.tableV6.value != NULL_OID)
    && (r.table.Some? && r.tableV6.Some? ==> r.table.value != r.tableV6.value)
  }

  predicate TablesReady(s: State) {
    && s.table in s.tables && s.tables[s.table] == NotIpv6
    && s.tableV6 in s.tables && s.tables[s.tableV6] == Ipv6
  }

  lemma TabledInv(handles: Handles, s: State, r: Reply)
    requires Inv(handles, s) && Fresh(s, r)
    ensures var (t, ok) := Tabled(s, r);
            && Inv(handles, t) && t.recs == s.recs && t.entries == s.entries
            && (ok ==> TablesReady(t))
  {
    var t := Tabled(s, r).0;
    assert forall i :: 0 <= i < |s.recs| ==> Backed(handles, s, s.recs[i]) && Backed(handles, t, s.recs[i]);
  }

  lemma EnteredInv(handles: Handles, s: State, p: U16, tr: Trans, r: Reply)
    requires Inv(handles, s) && FreshEntries(s, r) && p in handles && TablesReady(s)
    ensures Inv(handles, Entered(Egress, s, p, handles[p], tr, r).0)
  {
    var t := Entered(Egress, s, p, handles[p], tr, r).0;
    forall i | 0 <= i < |s.recs|
      ensures t.recs[i] == s.recs[i] && Backed(handles, t, s.recs[i])
      ensures r.entry.Some? ==> r.entry.value != s.recs[i].attrSai && r.entry.value != s.recs[i].attrSaiV6
      ensures r.entryV6.Some? ==> r.entryV6.value != s.recs[i].attrSai && r.entryV6.value != s.recs[i].attrSaiV6
    {
      assert Backed(handles, s, s.recs[i]);
    }
    if |t.recs| > |s.recs| {
      assert Backed(handles, t, t.recs[|s.recs|]);
    }
    assert TablesOk(t);
  }

  lemma SetInv(ports: PortMap, handles: Handles, s: State, lPort: U16, tr: Trans, r: Reply)
    requires Inv(handles, s) && Fresh(s, r)
    ensures Inv(handles, SetStep(Egress, ports, handles, s, lPort, tr, r).0)
  {
    TabledInv(handles, s, r);
    var (t, ok) := Tabled(s, r);
    if lPort in ports && Low16(ports[lPort].pPort) in handles && ok {
      EnteredInv(handles, t, Low16(ports[lPort].pPort), tr, r);
    }
  }

  lemma ErasedInv(handles: Handles, s: State, i: nat, removed: bool, removedV6: bool)
    requires Inv(handles, s) && i < |s.recs|
    ensures Inv(handles, s.(recs := Erased(s.recs, i), entries := s.entries - Gone(s.recs[i], removed, removedV6)))
  {
    var t := s.(recs := Erased(s.recs, i), entries := s.entries - Gone(s.recs[i], removed, removedV6));
    forall k | 0 <= k < |t.recs| ensures Backed(handles, t, t.recs[k]) {
      var j := if k < i then k else k + 1;
      assert t.recs[k] == s.recs[j] && Backed(handles, s, s.recs[j]);
      assert Apart(s.recs[if i < j then i else j], s.recs[if i < j then j else i]);
    }
    assert forall k :: 0 <= k < |t.recs| ==> t.recs[k] == s.recs[if k < i then k else k + 1];
  }

  lemma DeleteInv(ports: PortMap, handles: Handles, s: State, lPort: U16, tr: Trans, removed: bool, removedV6: bool)
    requires Inv(handles, s)
    ensures Inv(handles, DeleteStep(ports, s, lPort, tr, removed, removedV6).0)
  {
    if lPort in ports {
      var i := IndexOf(s.recs, ports[lPort].pPort, tr);
      if i < |s.recs| { ErasedInv(handles, s, i, removed, removedV6); }
    }
  }

  predicate Owns(e: Record, o: Oid) {
    e.attrSai == o || e.attrSaiV6 == o
  }

  lemma {:induction false} OwnedIs(recs: seq<Record>, o: Oid)
    ensures o in Owned(recs) <==> exists i :: 0 <= i < |recs| && Owns(recs[i], o)
  {
    if recs != [] {
      OwnedIs(recs[1..], o);
      if o in Owned(recs[1..]) {
        var i :| 0 <= i < |recs| - 1 && Owns(recs[1..][i], o);
        assert Owns(recs[i + 1], o);
      }
      if i :| 0 <= i < |recs| && Owns(recs[i], o) {
        if i > 0 { assert Owns(recs[1..][i - 1], o); }
      }
    }
  }

  // Conservation.

  /** The port table goes on growing while translations are set and deleted. */
  datatype Op =
    | Set(lPort: U16, trans: Trans, reply: Reply)
    | Delete(lPort: U16, trans: Trans, removed: bool, removedV6: bool)
    | AddPort(portSai: Oid)

  /** The egress side, with the port handles it resolves. */
  datatype World = World(handles: Handles, state: State)

  function Step(ports: PortMap, w: World, op: Op): World {
    match op
    case Set(l, tr, r) => w.(state := SetStep(Egress, ports, w.handles, w.state, l, tr, r).0)
    case Delete(l, tr, removed, removedV6) => w.(state := DeleteStep(ports, w.state, l, tr, removed, removedV6).0)
    case AddPort(portSai) => w.(handles := AddHandle(w.handles, portSai))
  }

  /** What this call strands: the first entry when the second is refused, and entries whose removal is refused. */
  function Lost(ports: PortMap, w: World, op: Op): set<Oid> {
    match op
    case Set(l, _, r) =>
      if l in ports && Low16(ports[l].pPort) in w.handles && r.query && Tabled(w.state, r).1
         && r.entry.Some? && r.entryV6.None? then {r.entry.value} else {}
    case Delete(l, tr, removed, removedV6) =>
      if l !in ports then {}
      else
        var i := IndexOf(w.state.recs, ports[l].pPort, tr);
        if i == |w.state.recs| then {} else Gone(w.state.recs[i], !removed, !removedV6)
    case AddPort(_) => {}
  }

  function Run(ports: PortMap, ops: seq<Op>): World
    decreases |ops|
  {
    if ops == [] then World(map[], EMPTY) else Step(ports, Run(ports, ops[..|ops| - 1]), ops[|ops| - 1])
  }

  function LostInRun(ports: PortMap, ops: seq<Op>): set<Oid>
    decreases |ops|
  {
    if ops == [] then {}
    else
      var before, last := ops[..|ops| - 1], ops[|ops| - 1];
      LostInRun(ports, before) + Lost(ports, Run(ports, before), last)
  }

  ghost predicate PossibleRun(ports: PortMap, ops: seq<Op>)
    decreases |ops|
  {
    ops != [] ==>
      var before, last := ops[..|ops| - 1], ops[|ops| - 1];
      PossibleRun(ports, before) && (last.Set? ==> Fresh(Run(ports, before).state, last.reply))
  }

  lemma AddPortInv(handles: Handles, s: State, portSai: Oid)
    requires Inv(handles, s)
    ensures Inv(AddHandle(handles, portSai), s)
  {
    forall i | 0 <= i < |s.recs| ensures Backed(AddHandle(handles, portSai), s, s.recs[i]) {
      assert Backed(handles, s, s.recs[i]);
    }
  }

  lemma StepInv(ports: PortMap, w: World, op: Op)
    requires Inv(w.handles, w.state) && (op.Set? ==> Fresh(w.state, op.reply))
    ensures var t := Step(ports, w, op); Inv(t.handles, t.state)
  {
    match op
    case Set(l, tr, r) => SetInv(ports, w.handles, w.state, l, tr, r);
    case Delete(l, tr, removed, removedV6) => DeleteInv(ports, w.handles, w.state, l, tr, removed, removedV6);
    case AddPort(portSai) => AddPortInv(w.handles, w.state, portSai);
  }

  lemma OwnedAppended(recs: seq<Record>, e: Record)
    ensures Owned(recs + [e]) == Owned(recs) + {e.attrSai, e.attrSaiV6}
  {
    var t := recs + [e];
    forall o: Oid ensures o in Owned(t) <==> o in Owned(recs) || Owns(e, o) {
      OwnedIs(t, o);
      OwnedIs(recs, o);
      assert t[|recs|] == e;
      if i :| 0 <= i < |recs| && Owns(recs[i], o) {
        assert Owns(t[i], o);
      }
    }
  }

  lemma OwnedByFirst(recs: seq<Record>, o: Oid)
    requires recs != [] && (forall j :: 0 < j < |recs| ==> Apart(recs[0], recs[j])) && Owns(recs[0], o)
    ensures o !in Owned(recs[1..])
  {
    OwnedIs(recs[1..], o);
    forall i | 0 <= i < |recs| - 1 ensures !Owns(recs[1..][i], o) {
      assert Apart(recs[0], recs[i + 1]);
    }
  }

  lemma {:induction false} OwnedErased(recs: seq<Record>, i: nat)
    requires i < |recs| && forall a, b :: 0 <= a < b < |recs| ==> Apart(recs[a], recs[b])
    ensures Owned(Erased(recs, i)) == Owned(recs) - {recs[i].attrSai, recs[i].attrSaiV6}
  {
    OwnedByFirst(recs, recs[0].attrSai);
    OwnedByFirst(recs, recs[0].attrSaiV6);
    if i == 0 {
      assert Erased(recs, 0) == recs[1..];
    } else {
      OwnedErased(recs[1..], i - 1);
      var t := Erased(recs, i);
      assert recs[1..][..i - 1] == recs[1..i] && recs[1..][i..] == recs[i + 1..];
      assert t[0] == recs[0] && t[1..] == recs[1..i] + recs[i + 1..];
      assert Apart(recs[0], recs[i]);
    }
  }

  lemma OwnedLive(handles: Handles, s: State)
    requires Inv(handles, s)
    ensures Owned(s.recs) <= s.entries.Keys
  {
    forall o | o in Owned(s.recs) ensures o in s.entries {
      OwnedIs(s.recs, o);
      var i :| 0 <= i < |s.recs| && Owns(s.recs[i], o);
      assert Backed(handles, s, s.recs[i]);
    }
  }

  lemma SetOrphans(ports: PortMap, handles: Handles, s: State, lPort: U16, tr: Trans, r: Reply)
    requires Inv(handles, s) && Fresh(s, r)
    ensures Orphans(SetStep(Egress, ports, handles, s, lPort, tr, r).0)
         == Orphans(s) + Lost(ports, World(handles, s), Set(lPort, tr, r))
  {
    OwnedLive(handles, s);
    if lPort in ports && Low16(ports[lPort].pPort) in handles && r.entry.Some? && r.entryV6.Some? {
      OwnedAppended(s.recs, Record(Low16(ports[lPort].pPort), tr, r.entry.value, r.entryV6.value));
    }
  }

  lemma ErasedOrphans(handles: Handles, s: State, i: nat, removed: bool, removedV6: bool)
    requires Inv(handles, s) && i < |s.recs|
    ensures var e := s.recs[i];
            Orphans(s.(recs := Erased(s.recs, i), entries := s.entries - Gone(e, removed, removedV6)))
            == Orphans(s) + Gone(e, !removed, !removedV6)
  {
    OwnedErased(s.recs, i);
    OwnedIs(s.recs, s.recs[i].attrSai);
    OwnedIs(s.recs, s.recs[i].attrSaiV6);
    assert Backed(handles, s, s.recs[i]);
  }

  lemma DeleteOrphans(
      ports: PortMap, handles: Handles, s: State, lPort: U16, tr: Trans, removed: bool, removedV6: bool)
    requires Inv(handles, s)
    ensures Orphans(DeleteStep(ports, s, lPort, tr, removed, removedV6).0)
         == Orphans(s) + Lost(ports, World(handles, s), Delete(lPort, tr, removed, removedV6))
  {
    if lPort in ports {
      var i := IndexOf(s.recs, ports[lPort].pPort, tr);
      if i < |s.recs| { ErasedOrphans(handles, s, i, removed, removedV6); }
    }
  }

  /** After any run of egress sets and deletes, with ports added in between and any call refused anywhere: every record
      owns two live entries that carry out its translation, no handle is owned twice, and the live entries are exactly
      those the records own and those some refusal stranded. */
  lemma {:induction false} RunInv(ports: PortMap, ops: seq<Op>)
    requires PossibleRun(ports, ops)
    ensures Inv(Run(ports, ops).handles, Run(ports, ops).state)
    ensures Orphans(Run(ports, ops).state) == LostInRun(ports, ops)
    decreases |ops|
  {
    if ops != [] {
      var before, last := ops[..|ops| - 1], ops[|ops| - 1];
      RunInv(ports, before);
      var w := Run(ports, before);
      StepInv(ports, w, last);
      match last
      case Set(l, tr, r) => SetOrphans(ports, w.handles, w.state, l, tr, r);
      case Delete(l, tr, removed, removedV6) => DeleteOrphans(ports, w.handles, w.state, l, tr, removed, removedV6);
      case AddPort(_) =>
    }
  }

  // Tables that nothing refers to any more.

  function StrandedTables(s: State): set<Oid> {
    s.tables.Keys - {s.table, s.tableV6}
  }

  /** The tables this call strands: what was cached before, when one of the pair was missing and is created again. A
      refused IPv6 table thus strands the other one as soon as a later call creates it again. */
  function LostTables(ports: PortMap, w: World, op: Op): set<Oid> {
    match op
    case Set(l, _, r) =>
      if l in ports && Low16(ports[l].pPort) in w.handles && r.query && r.table.Some?
         && (w.state.table == NULL_OID || w.state.tableV6 == NULL_OID) then
        ({w.state.table} + if r.tableV6.Some? then {w.state.tableV6} else {}) - {NULL_OID}
      else {}
    case _ => {}
  }

  function LostTablesInRun(ports: PortMap, ops: seq<Op>): set<Oid>
    decreases |ops|
  {
    if ops == [] then {}
    else
      var before, last := ops[..|ops| - 1], ops[|ops| - 1];
      LostTablesInRun(ports, before) + LostTables(ports, Run(ports, before), last)
  }

  lemma StepTables(ports: PortMap, w: World, op: Op)
    requires TablesOk(w.state) && NULL_OID !in w.state.tables && (op.Set? ==> Fresh(w.state, op.reply))
    ensures var t := Step(ports, w, op).state;
            && NULL_OID !in t.tables
            && StrandedTables(t) == StrandedTables(w.state) + LostTables(ports, w, op)
  {
  }

  /** After any egress run the live tables are the two cached ones and those that creating again has stranded. */
  lemma {:induction false} RunTables(ports: PortMap, ops: seq<Op>)
    requires PossibleRun(ports, ops)
    ensures StrandedTables(Run(ports, ops).state) == LostTablesInRun(ports, ops)
    ensures NULL_OID !in Run(ports, ops).state.tables
    decreases |ops|
  {
    if ops != [] {
      var before, last := ops[..|ops| - 1], ops[|ops| - 1];
      RunTables(ports, before);
      RunInv(ports, before);
      StepTables(ports, Run(ports, before), last);
    }
  }

  /** A granted delete takes the first record equal on port and translation, and exactly its two entries; the
      other records keep their order. */
  lemma DeleteExact(ports: PortMap, handles: Handles, s: State, lPort: U16, tr: Trans, i: nat)
    requires Inv(handles, s) && lPort in ports && i < |s.recs|
    requires Names(s.recs[i], ports[lPort].pPort, tr)
    requires forall j :: 0 <= j < i ==> !Names(s.recs[j], ports[lPort].pPort, tr)
    ensures var t := DeleteStep(ports, s, lPort, tr, true, true).0;
            && t.recs == s.recs[..i] + s.recs[i + 1..]
            && |t.entries| == |s.entries| - 2
            && (forall o :: o in t.entries <==> o in s.entries && o != s.recs[i].attrSai && o != s.recs[i].attrSaiV6)
            && (forall o :: o in t.entries ==> t.entries[o] == s.entries[o])
  {
    assert IndexOf(s.recs, ports[lPort].pPort, tr) == i;
    var e, t := s.recs[i], DeleteStep(ports, s, lPort, tr, true, true).0;
    assert Backed(handles, s, e);
    assert t.entries.Keys == s.entries.Keys - {e.attrSai, e.attrSaiV6};
  }

  /** Deleting what was just set undoes it exactly when the physical port fits in the record's 16 bits and the same
      translation was not there before. With an earlier copy the earlier record goes and the new one stays; a wider
      port is recorded under an id that no delete can name. */
  lemma SetThenDelete(ports: PortMap, handles: Handles, s: State, lPort: U16, tr: Trans, r: Reply)
    requires Inv(handles, s) && Fresh(s, r) && lPort in ports && Low16(ports[lPort].pPort) in handles
    requires SetStep(Egress, ports, handles, s, lPort, tr, r).1 == RC_OK
    ensures var t := SetStep(Egress, ports, handles, s, lPort, tr, r).0;
            var u := DeleteStep(ports, t, lPort, tr, true, true).0;
            var p := ports[lPort].pPort;
            var undone := p < 0x1_0000 && forall e :: e in s.recs ==> !Names(e, p, tr);
            (u.recs == s.recs <==> undone) && (u.entries == s.entries <==> undone)
  {
    var t := SetStep(Egress, ports, handles, s, lPort, tr, r).0;
    var e := Record(Low16(ports[lPort].pPort), tr, r.entry.value, r.entryV6.value);
    assert t.recs == s.recs + [e];
    assert t.entries - {e.attrSai, e.attrSaiV6} == s.entries;
    AppendThenDelete(ports, handles, s, t, lPort, e);
  }

  lemma AppendThenDelete(ports: PortMap, handles: Handles, s: State, t: State, lPort: U16, e: Record)
    requires Inv(handles, s) && lPort in ports && e.portId == Low16(ports[lPort].pPort)
    requires e.attrSai !in s.entries && e.attrSai in t.entries
    requires t.recs == s.recs + [e] && t.entries - {e.attrSai, e.attrSaiV6} == s.entries
    ensures var u := DeleteStep(ports, t, lPort, e.trans, true, true).0;
            var p := ports[lPort].pPort;
            var undone := p < 0x1_0000 && forall x :: x in s.recs ==> !Names(x, p, e.trans);
            (u.recs == s.recs <==> undone) && (u.entries == s.entries <==> undone)
  {
    AppendThenFind(s.recs, e, ports[lPort].pPort);
    var i := IndexOf(t.recs, ports[lPort].pPort, e.trans);
    if i < |s.recs| {
      UndoesOlder(handles, s, e, i);
      assert Backed(handles, s, s.recs[i]);
    } else {
      assert Gone(e, true, true) == {e.attrSai, e.attrSaiV6};
    }
  }

  lemma AppendThenFind(recs: seq<Record>, e: Record, p: U32)
    requires e.portId == Low16(p)
    ensures var i := IndexOf(recs + [e], p, e.trans);
            && (i < |recs| <==> exists x :: x in recs && Names(x, p, e.trans))
            && (i == |recs| <==> p < 0x1_0000 && forall x :: x in recs ==> !Names(x, p, e.trans))
            && (i == |recs| ==> Erased(recs + [e], i) == recs)
  {
    var t, n := recs + [e], |recs|;
    var i := IndexOf(t, p, e.trans);
    assert t[n] == e && Names(e, Low16(p), e.trans);
    if x :| x in recs && Names(x, p, e.trans) {
      var j :| 0 <= j < n && recs[j] == x;
      assert t[j] == x;
    }
    if i < n { assert t[i] == recs[i]; }
  }

  lemma UndoesOlder(handles: Handles, s: State, e: Record, i: nat)
    requires Inv(handles, s) && e.attrSai !in s.entries && i < |s.recs|
    ensures Erased(s.recs + [e], i) != s.recs
  {
    assert Erased(s.recs + [e], i)[|s.recs| - 1] == e;
    assert Backed(handles, s, s.recs[|s.recs| - 1]);
  }

  predicate Granted(r: Reply) {
    r.query && r.table.Some? && r.tableV6.Some? && r.entry.Some? && r.entryV6.Some?
  }

  /** The ingress side breaks this: its record does not hold the first entry, unless the unassigned handle happens to
      name it. So even when every call is granted, a set followed by its delete leaves the first entry live unless the
      record that goes names it; and when that record is the one just set, only the unassigned handle can. */
  lemma IngressStrands(ports: PortMap, handles: Handles, s: State, lPort: U16, tr: Trans, r: Reply)
    requires Fresh(s, r) && lPort in ports && Low16(ports[lPort].pPort) in handles && Granted(r)
    ensures var p, n := ports[lPort].pPort, |s.recs|;
            var t := SetStep(Ingress, ports, handles, s, lPort, tr, r).0;
            var u := DeleteStep(ports, t, lPort, tr, true, true).0;
            var i := IndexOf(t.recs, p, tr);
            && r.entry.value in t.entries && |t.recs| == n + 1
            && (Owns(t.recs[n], r.entry.value) <==> r.junk == r.entry.value)
            && (r.entry.value in u.entries <==> i == |t.recs| || !Owns(t.recs[i], r.entry.value))
            && (i == n ==> u.recs == s.recs)
            && (i == n <==> p < 0x1_0000 && forall e :: e in s.recs ==> !Names(e, p, tr))
  {
    var p := ports[lPort].pPort;
    var t := SetStep(Ingress, ports, handles, s, lPort, tr, r).0;
    var e := Record(Low16(p), tr, r.entryV6.value, r.junk);
    assert t.recs == s.recs + [e];
    AppendThenFind(s.recs, e, p);
  }

  /** What a call of either direction answers. OK comes exactly of a known logical port that has no handle, or of one
      for which everything is granted; without a handle nothing changes, and no failure adds a record. */
  lemma SetAnswer(stage: Stage, ports: PortMap, handles: Handles, s: State, lPort: U16, tr: Trans, r: Reply)
    ensures var (t, rc) := SetStep(stage, ports, handles, s, lPort, tr, r);
            var cached := s.table != NULL_OID && s.tableV6 != NULL_OID;
            && (rc == RC_OK || rc == RC_FAIL)
            && (rc == RC_OK <==>
                  && lPort in ports
                  && (Low16(ports[lPort].pPort) in handles ==>
                        && r.query && (cached || (r.table.Some? && r.tableV6.Some?))
                        && r.entry.Some? && r.entryV6.Some?))
            && (lPort !in ports || Low16(ports[lPort].pPort) !in handles ==> t == s)
            && (rc == RC_FAIL ==> t.recs == s.recs)
            && (cached ==> t.table == s.table && t.tableV6 == s.tableV6 && t.tables == s.tables)
  {
  }

  /** What a granted set of either direction puts into the hardware: two entries that carry out the translation on the
      port, one in a table for IPv6 packets and one in a table for the rest. Both match input ports, except that the
      first of an egress pair matches output ports. Every older entry stays as it is, and one record is added. */
  lemma SetCarriesOut(stage: Stage, ports: PortMap, handles: Handles, s: State, lPort: U16, tr: Trans, r: Reply)
    requires TablesOk(s) && Fresh(s, r) && lPort in ports && Low16(ports[lPort].pPort) in handles
    requires SetStep(stage, ports, handles, s, lPort, tr, r).1 == RC_OK
    ensures var t := SetStep(stage, ports, handles, s, lPort, tr, r).0;
            var p := Low16(ports[lPort].pPort);
            && t.entries.Keys == s.entries.Keys + {r.entry.value, r.entryV6.value}
            && (forall o :: o in s.entries ==> t.entries[o] == s.entries[o])
            && CarriesOut(t, t.entries[r.entryV6.value], Ipv6, InPorts, handles[p], tr)
            && (stage.Ingress? ==> CarriesOut(t, t.entries[r.entry.value], NotIpv6, InPorts, handles[p], tr))
            && (stage.Egress? ==> CarriesOut(t, t.entries[r.entry.value], NotIpv6, OutPorts, handles[p], tr))
            && |t.recs| == |s.recs| + 1 && t.recs[..|s.recs|] == s.recs
            && t.recs[|s.recs|].portId == p && t.recs[|s.recs|].trans == tr
            && (stage.Ingress? ==> t.recs[|s.recs|].attrSai == r.entryV6.value)
            && (stage.Egress? ==>
                  t.recs[|s.recs|].attrSai == r.entry.value && t.recs[|s.recs|].attrSaiV6 == r.entryV6.value)
  {
  }

  /** A delete answers OK exactly for a known logical port; for an unknown one it changes nothing, and without a record
      to name neither. */
  lemma DeleteAnswer(ports: PortMap, s: State, lPort: U16, tr: Trans, removed: bool, removedV6: bool)
    ensures var (t, rc) := DeleteStep(ports, s, lPort, tr, removed, removedV6);
            && rc == (if lPort in ports then RC_OK else RC_FAIL)
            && (lPort !in ports ==> t == s)
            && (lPort in ports && (forall e :: e in s.recs ==> !Names(e, ports[lPort].pPort, tr)) ==> t == s)
            && t.tables == s.tables && t.table == s.table && t.tableV6 == s.tableV6
  {
  }

  /** What goes is the first record equal on port and translation, and of its two entries those whose removal is
      granted. */
  lemma DeleteTakes(ports: PortMap, s: State, lPort: U16, tr: Trans, removed: bool, removedV6: bool, i: nat)
    requires lPort in ports && i < |s.recs| && Names(s.recs[i], ports[lPort].pPort, tr)
    requires forall j :: 0 <= j < i ==> !Names(s.recs[j], ports[lPort].pPort, tr)
    ensures var t := DeleteStep(ports, s, lPort, tr, removed, removedV6).0;
            var e := s.recs[i];
            && t.recs == s.recs[..i] + s.recs[i + 1..]
            && (forall o :: o in t.entries <==>
                  o in s.entries && !(o == e.attrSai && removed) && !(o == e.attrSaiV6 && removedV6))
            && (forall o :: o in t.entries ==> t.entries[o] == s.entries[o])
  {
  }

  // Reading back.

  /** The translations recorded on a port, in table order. */
  function On(recs: seq<Record>, p: U32): seq<Trans> {
    if recs == [] then []
    else
      var n := |recs| - 1;
      On(recs[..n], p) + if recs[n].portId == p then [recs[n].trans] else []
  }

  /** The caller's array holds `max` translations; a non-positive `max` is never reached. */
  function Shown(ts: seq<Trans>, max: int): seq<Trans> {
    if 0 < max <= |ts| then ts[..max] else ts
  }

  lemma {:induction false} OnConcat(a: seq<Record>, b: seq<Record>, p: U32)
    ensures On(a + b, p) == On(a, p) + On(b, p)
  {
    if b == [] {
      assert a + b == a;
    } else {
      var n := |b| - 1;
      OnConcat(a, b[..n], p);
      assert (a + b)[..|a + b| - 1] == a + b[..n];
    }
  }

  /** idx lists in increasing order exactly the places of port p. */
  ghost predicate PlacesOf(idx: seq<nat>, recs: seq<Record>, p: U32) {
    && (forall a, b :: 0 <= a < b < |idx| ==> idx[a] < idx[b])
    && (forall i :: i in idx ==> i < |recs| && recs[i].portId == p)
    && (forall i :: 0 <= i < |recs| && recs[i].portId == p ==> i in idx)
  }

  /** ts are the translations at the first of these places, up to the caller's room when that is positive. */
  ghost predicate FirstAt(idx: seq<nat>, recs: seq<Record>, ts: seq<Trans>, max: int) {
    && |ts| == (if 0 < max <= |idx| then max else |idx|)
    && forall j :: 0 <= j < |ts| ==> idx[j] < |recs| && ts[j] == recs[idx[j]].trans
  }

  ghost predicate Reports(recs: seq<Record>, p: U32, max: int, ts: seq<Trans>) {
    exists idx: seq<nat> :: PlacesOf(idx, recs, p) && FirstAt(idx, recs, ts, max)
  }

  function OfPort(p: U32): Record -> bool {
    (e: Record) => e.portId == p
  }

  lemma {:induction false} OnPlaces(recs: seq<Record>, p: U32)
    ensures var idx := Places(recs, OfPort(p));
            && |On(recs, p)| == |idx|
            && forall j :: 0 <= j < |idx| ==> idx[j] < |recs| && On(recs, p)[j] == recs[idx[j]].trans
  {
    if recs != [] { OnPlaces(recs[..|recs| - 1], p); }
  }

  lemma ShownReported(recs: seq<Record>, p: U32, max: int)
    ensures Reports(recs, p, max, Shown(On(recs, p), max))
  {
    var idx := Places(recs, OfPort(p));
    PlacesPick(recs, OfPort(p));
    OnPlaces(recs, p);
    assert PlacesOf(idx, recs, p);
    assert FirstAt(idx, recs, Shown(On(recs, p), max), max);
  }

  /** A granted set appends its translation to its own port's list and changes no other port's. */
  lemma SetThenGet(stage: Stage, ports: PortMap, handles: Handles, s: State, lPort: U16, tr: Trans, r: Reply, p: U32)
    requires lPort in ports && Low16(ports[lPort].pPort) in handles
    requires SetStep(stage, ports, handles, s, lPort, tr, r).1 == RC_OK
    ensures On(SetStep(stage, ports, handles, s, lPort, tr, r).0.recs, p)
         == On(s.recs, p) + if p == Low16(ports[lPort].pPort) then [tr] else []
  {
    var t := SetStep(stage, ports, handles, s, lPort, tr, r).0;
    var n := |s.recs|;
    assert t.recs[..n] == s.recs;
  }

  lemma OnSplit(recs: seq<Record>, i: nat, p: U32)
    requires i < |recs|
    ensures var own := if recs[i].portId == p then [recs[i].trans] else [];
            On(recs, p) == On(recs[..i], p) + own + On(recs[i + 1..], p)
  {
    var front := recs[..i + 1];
    OnConcat(front, recs[i + 1..], p);
    assert recs == front + recs[i + 1..];
    assert front[..i] == recs[..i];
  }

  /** A delete takes the first equal translation out of its own port's list and changes no other port's. */
  lemma DeleteThenGet(ports: PortMap, s: State, lPort: U16, tr: Trans, removed: bool, removedV6: bool, p: U32)
    requires lPort in ports && IndexOf(s.recs, ports[lPort].pPort, tr) < |s.recs|
    ensures var i := IndexOf(s.recs, ports[lPort].pPort, tr);
            var own := if p == ports[lPort].pPort then [tr] else [];
            && On(s.recs, p) == On(s.recs[..i], p) + own + On(s.recs[i + 1..], p)
            && On(DeleteStep(ports, s, lPort, tr, removed, removedV6).0.recs, p)
               == On(s.recs[..i], p) + On(s.recs[i + 1..], p)
            && (p == ports[lPort].pPort ==> tr !in On(s.recs[..i], p))
  {
    var i := IndexOf(s.recs, ports[lPort].pPort, tr);
    OnSplit(s.recs, i, p);
    OnConcat(s.recs[..i], s.recs[i + 1..], p);
    OnMember(s.recs[..i], p, tr);
  }

  lemma {:induction false} OnMember(recs: seq<Record>, p: U32, tr: Trans)
    ensures tr in On(recs, p) <==> exists i :: 0 <= i < |recs| && Names(recs[i], p, tr)
  {
    if recs != [] {
      var n := |recs| - 1;
      OnMember(recs[..n], p, tr);
      if i :| 0 <= i < n && Names(recs[..n][i], p, tr) {
        assert recs[i] == recs[..n][i];
      }
      if i :| 0 <= i < |recs| && Names(recs[i], p, tr) {
        assert i < n ==> recs[..n][i] == recs[i];
      }
    }
  }

  // Warm boot.

  /** The first n saved records, replayed through the public entry point into an empty side. */
  function Restored(
      stage: Stage, ports: PortMap, handles: Handles, saved: seq<Record>, rs: seq<Reply>, n: nat): (State, bool)
    requires n <= |saved| == |rs|
  {
    if n == 0 then (EMPTY, true)
    else
      var (s, ok) := Restored(stage, ports, handles, saved, rs, n - 1);
      if !ok then (s, false) else RestoreOne(stage, ports, handles, s, saved[n - 1], rs[n - 1])
  }

  /** The logical port is narrowed to 16 bits on its way into the entry point. */
  function RestoreOne(stage: Stage, ports: PortMap, handles: Handles, s: State, e: Record, r: Reply): (State, bool) {
    match Logical(ports, 0, e.portId)
    case None => (s, false)
    case Some(l) =>
      var (t, rc) := SetStep(stage, ports, handles, s, Low16(l), e.trans, r);
      (t, rc == RC_OK)
  }

  /** Two records agree on what the user configured. */
  predicate SameConfig(a: Record, b: Record) {
    a.portId == b.portId && a.trans == b.trans
  }

  /** The first n saved records are back, in order, with nothing in between or after. */
  ghost predicate Back(saved: seq<Record>, n: nat, recs: seq<Record>)
    requires n <= |saved|
  {
    |recs| == n && forall i :: 0 <= i < n ==> SameConfig(recs[i], saved[i])
  }

  /** Port p is replayed under its own id: the logical port it translates to, cut to 16 bits, leads to a physical
      port with the same low bits, and the port has a handle. */
  predicate Resolves(ports: PortMap, handles: Handles, p: U16) {
    var q := Replayed(ports, p);
    q.Some? && Low16(q.value) == p && p in handles
  }

  /** One turn appends at most one record, and appends this one exactly when its port resolves. */
  lemma RestoreOneSpec(stage: Stage, ports: PortMap, handles: Handles, s: State, e: Record, r: Reply)
    requires Granted(r)
    ensures var (t, ok) := RestoreOne(stage, ports, handles, s, e, r);
            && |s.recs| <= |t.recs| <= |s.recs| + 1 && t.recs[..|s.recs|] == s.recs
            && (ok && |t.recs| > |s.recs| && SameConfig(t.recs[|s.recs|], e) <==> Resolves(ports, handles, e.portId))
  {
  }

  lemma {:induction false} RestoredSpec(
      stage: Stage, ports: PortMap, handles: Handles, saved: seq<Record>, rs: seq<Reply>, n: nat)
    requires n <= |saved| == |rs| && forall r :: r in rs ==> Granted(r)
    ensures var (t, ok) := Restored(stage, ports, handles, saved, rs, n);
            && |t.recs| <= n
            && (ok && Back(saved, n, t.recs) <==> forall i :: 0 <= i < n ==> Resolves(ports, handles, saved[i].portId))
    decreases n
  {
    if n > 0 {
      RestoredSpec(stage, ports, handles, saved, rs, n - 1);
      var (s, ok) := Restored(stage, ports, handles, saved, rs, n - 1);
      var e, r := saved[n - 1], rs[n - 1];
      assert r in rs;
      RestoreOneSpec(stage, ports, handles, s, e, r);
      if ok {
        BackOne(stage, ports, handles, saved, n, s, r);
      }
    }
  }

  lemma BackOne(stage: Stage, ports: PortMap, handles: Handles, saved: seq<Record>, n: nat, s: State, r: Reply)
    requires 0 < n <= |saved| && |s.recs| < n && Granted(r)
    ensures var (t, ok) := RestoreOne(stage, ports, handles, s, saved[n - 1], r);
            ok && Back(saved, n, t.recs)
            <==> Back(saved, n - 1, s.recs) && Resolves(ports, handles, saved[n - 1].portId)
  {
    RestoreOneSpec(stage, ports, handles, s, saved[n - 1], r);
    var t := RestoreOne(stage, ports, handles, s, saved[n - 1], r).0;
    assert forall i :: 0 <= i < |s.recs| ==> t.recs[i] == t.recs[..|s.recs|][i];
  }

  /** What the first n saved records become: each under the id its port is replayed to, those without a handle left
      out. */
  function Survivors(ports: PortMap, handles: Handles, saved: seq<Record>, n: nat): seq<(U16, Trans)>
    requires n <= |saved|
  {
    if n == 0 then []
    else
      var before := Survivors(ports, handles, saved, n - 1);
      match Replayed(ports, saved[n - 1].portId)
      case None => before
      case Some(q) => if Low16(q) in handles then before + [(Low16(q), saved[n - 1].trans)] else before
  }

  function Configs(recs: seq<Record>): (r: seq<(U16, Trans)>)
    ensures |r| == |recs| && forall i :: 0 <= i < |r| ==> r[i] == (recs[i].portId, recs[i].trans)
  {
    seq(|recs|, i requires 0 <= i < |recs| => (recs[i].portId, recs[i].trans))
  }

  /** Every port is replayed to some physical port. */
  predicate AllReplayed(ports: PortMap, saved: seq<Record>, n: nat)
    requires n <= |saved|
  {
    forall i :: 0 <= i < n ==> Replayed(ports, saved[i].portId).Some?
  }

  lemma RestoreOneOk(stage: Stage, ports: PortMap, handles: Handles, s: State, e: Record, r: Reply)
    requires Granted(r)
    ensures var (t, ok) := RestoreOne(stage, ports, handles, s, e, r);
            var q := Replayed(ports, e.portId);
            && (ok <==> q.Some?)
            && (ok ==>
                  Configs(t.recs)
                  == Configs(s.recs) + if Low16(q.value) in handles then [(Low16(q.value), e.trans)] else [])
  {
  }

  /** With every call granted the replay of one direction reports success exactly when every saved port has a logical
      name whose low 16 bits are a known logical port, and then leaves exactly the survivors, in order. */
  lemma {:induction false} RestoredOk(
      stage: Stage, ports: PortMap, handles: Handles, saved: seq<Record>, rs: seq<Reply>, n: nat)
    requires n <= |saved| == |rs| && forall r :: r in rs ==> Granted(r)
    ensures var (t, ok) := Restored(stage, ports, handles, saved, rs, n);
            (ok <==> AllReplayed(ports, saved, n)) && (ok ==> Configs(t.recs) == Survivors(ports, handles, saved, n))
    decreases n
  {
    if n > 0 {
      RestoredOk(stage, ports, handles, saved, rs, n - 1);
      assert rs[n - 1] in rs;
      RestoreOneOk(stage, ports, handles, Restored(stage, ports, handles, saved, rs, n - 1).0, saved[n - 1], rs[n - 1]);
    }
  }

  /** The first port that is not replayed stops everything: the records before it are there and nothing after it is. */
  lemma RestoredStops(
      stage: Stage, ports: PortMap, handles: Handles, saved: seq<Record>, rs: seq<Reply>, k: nat, n: nat)
    requires k < n <= |saved| == |rs| && forall r :: r in rs ==> Granted(r)
    requires AllReplayed(ports, saved, k) && Replayed(ports, saved[k].portId).None?
    ensures var (t, ok) := Restored(stage, ports, handles, saved, rs, n);
            !ok && Configs(t.recs) == Survivors(ports, handles, saved, k)
  {
    RestoredOk(stage, ports, handles, saved, rs, k);
    RestoredOk(stage, ports, handles, saved, rs, k + 1);
    assert rs[k] in rs;
    StaysFailed(stage, ports, handles, saved, rs, k + 1, n);
  }

  /** None is lost exactly when every port that is replayed has a handle. */
  lemma {:induction false} SurvivorsAll(ports: PortMap, handles: Handles, saved: seq<Record>, n: nat)
    requires n <= |saved| && AllReplayed(ports, saved, n)
    ensures var lost := exists i :: 0 <= i < n && Low16(Replayed(ports, saved[i].portId).value) !in handles;
            |Survivors(ports, handles, saved, n)| <= n && (|Survivors(ports, handles, saved, n)| < n <==> lost)
  {
    if n > 0 { SurvivorsAll(ports, handles, saved, n - 1); }
  }

  /** OK with a record dropped: with every call granted, that is what comes back exactly when every port is replayed to
      a physical port and one of these has no handle. */
  lemma DroppedWithOk(stage: Stage, ports: PortMap, handles: Handles, saved: seq<Record>, rs: seq<Reply>)
    requires |saved| == |rs| && forall r :: r in rs ==> Granted(r)
    ensures var (t, ok) := Restored(stage, ports, handles, saved, rs, |rs|);
            ok && |t.recs| < |saved|
            <==> && AllReplayed(ports, saved, |rs|)
                 && exists i :: 0 <= i < |saved| && Low16(Replayed(ports, saved[i].portId).value) !in handles
  {
    RestoredOk(stage, ports, handles, saved, rs, |rs|);
    if AllReplayed(ports, saved, |rs|) { SurvivorsAll(ports, handles, saved, |rs|); }
  }

  /** The ingress list is replayed first; a failure stops everything. */
  function RestoredBoth(
      ports: PortMap, handles: Handles, ingress: seq<Record>, egress: seq<Record>, ri: seq<Reply>,
      re: seq<Reply>): (State, State, bool)
    requires |ingress| == |ri| && |egress| == |re|
  {
    var (i, ok) := Restored(Ingress, ports, handles, ingress, ri, |ri|);
    if !ok then (i, EMPTY, false)
    else
      var (e, ok1) := Restored(Egress, ports, handles, egress, re, |re|);
      (i, e, ok1)
  }

  /** The warm-boot round trip: when SAI grants every call, both directions come back in order, record by record,
      exactly when every saved port resolves. A port without a handle is dropped with an OK. */
  lemma WarmBootRoundTrip(
      ports: PortMap, handles: Handles, ingress: seq<Record>, egress: seq<Record>, ri: seq<Reply>, re: seq<Reply>)
    requires |ingress| == |ri| && |egress| == |re|
    requires forall r :: r in ri + re ==> Granted(r)
    ensures var (i, e, ok) := RestoredBoth(ports, handles, ingress, egress, ri, re);
            ok && Back(ingress, |ingress|, i.recs) && Back(egress, |egress|, e.recs)
            <==> forall x :: x in ingress + egress ==> Resolves(ports, handles, x.portId)
  {
    assert forall r :: r in ri || r in re ==> r in ri + re;
    RestoredSpec(Ingress, ports, handles, ingress, ri, |ri|);
    RestoredSpec(Egress, ports, handles, egress, re, |re|);
    AllOf(ports, handles, ingress);
    AllOf(ports, handles, egress);
  }

  /** The handler reports success exactly when every port of both lists is replayed, whatever has no handle. */
  lemma WarmBootOk(
      ports: PortMap, handles: Handles, ingress: seq<Record>, egress: seq<Record>, ri: seq<Reply>, re: seq<Reply>)
    requires |ingress| == |ri| && |egress| == |re|
    requires forall r :: r in ri + re ==> Granted(r)
    ensures var (i, e, ok) := RestoredBoth(ports, handles, ingress, egress, ri, re);
            && (ok <==> AllReplayed(ports, ingress, |ri|) && AllReplayed(ports, egress, |re|))
            && (!AllReplayed(ports, ingress, |ri|) ==> e == EMPTY)
            && (AllReplayed(ports, ingress, |ri|) ==> Configs(i.recs) == Survivors(ports, handles, ingress, |ri|))
  {
    assert forall r :: r in ri || r in re ==> r in ri + re;
    RestoredOk(Ingress, ports, handles, ingress, ri, |ri|);
    RestoredOk(Egress, ports, handles, egress, re, |re|);
  }

  lemma AllOf(ports: PortMap, handles: Handles, recs: seq<Record>)
    ensures (forall i :: 0 <= i < |recs| ==> Resolves(ports, handles, recs[i].portId))
       <==> (forall x :: x in recs ==> Resolves(ports, handles, x.portId))
  {
    assert forall i :: 0 <= i < |recs| ==> recs[i] in recs;
  }

  /** One direction's globals. */
  class TranslationTable {
    const stage: Stage
    const ports: PortMap
    var recs: seq<Record>
    var table: Oid
    var tableV6: Oid
    ghost var tables: map<Oid, Family>
    ghost var entries: map<Oid, Entry>

    ghost function Now(): State
      reads this
    {
      State(recs, table, tableV6, tables, entries)
    }

    constructor (stage: Stage, ports: PortMap)
      ensures this.stage == stage && this.ports == ports && Now() == EMPTY
    {
      this.stage, this.ports := stage, ports;
      recs, table, tableV6 := [], NULL_OID, NULL_OID;
      tables, entries := map[], map[];
    }

    method EnsureTables(r: Reply) returns (ok: bool)
      modifies this
      ensures (Now(), ok) == Tabled(old(Now()), r)
    {
      if table != NULL_OID && tableV6 != NULL_OID { return true; }
      if r.table.None? { return false; }
      table := r.table.value;
      tables := tables[table := NotIpv6];
      if r.tableV6.None? { return false; }
      tableV6 := r.tableV6.value;
      tables := tables[tableV6 := Ipv6];
      return true;
    }

    /** VendorSetEgressVlanTranslation, VendorSetIngressVlanTranslation. */
    method VendorSetVlanTranslation(handles: Handles, lPort: U16, tr: Trans, r: Reply) returns (rc: int)
      modifies this
      ensures (Now(), rc) == SetStep(stage, ports, handles, old(Now()), lPort, tr, r)
    {
      if lPort !in ports { return RC_FAIL; }
      var p := Low16(ports[lPort].pPort);
      if p !in handles { return RC_OK; }
      if !r.query { return RC_FAIL; }
      var ok := EnsureTables(r);
      if !ok || r.entry.None? { return RC_FAIL; }
      entries := entries[r.entry.value := Entry(table, if stage.Egress? then OutPorts else InPorts, handles[p], tr)];
      if r.entryV6.None? { return RC_FAIL; }
      entries := entries[r.entryV6.value := Entry(tableV6, InPorts, handles[p], tr)];
      var newent := if stage.Egress? then Record(p, tr, r.entry.value, r.entryV6.value)
                    else Record(p, tr, r.entryV6.value, r.junk);
      recs := recs + [newent];
      return RC_OK;
    }

    method RemoveEntry(o: Oid, removed: bool)
      modifies this`entries
      ensures entries == old(entries) - (if removed then {o} else {})
    {
      if removed {
        entries := entries - {o};
      }
    }

    /** VendorDeleteEgressVlanTranslation, VendorDeleteIngressVlanTranslation. */
    method VendorDeleteVlanTranslation(lPort: U16, tr: Trans, removed: bool, removedV6: bool) returns (rc: int)
      modifies this
      ensures (Now(), rc) == DeleteStep(ports, old(Now()), lPort, tr, removed, removedV6)
    {
      if lPort !in ports { return RC_FAIL; }
      var p := ports[lPort].pPort;
      var i := 0;
      while i < |recs|
        invariant 0 <= i <= |recs|
        invariant Now() == old(Now())
        invariant forall j :: 0 <= j < i ==> !Names(recs[j], p, tr)
      {
        if recs[i].portId == p && recs[i].trans.newVlan == tr.newVlan && recs[i].trans.oldVlan == tr.oldVlan {
          assert IndexOf(recs, p, tr) == i;
          RemoveEntry(recs[i].attrSai, removed);
          RemoveEntry(recs[i].attrSaiV6, removedV6);
          assert entries == old(entries) - Gone(recs[i], removed, removedV6);
          recs := recs[..i] + recs[i + 1..];
          return RC_OK;
        }
        i := i + 1;
      }
      return RC_OK;
    }

    /** VendorGetEgressVlanTranslation, VendorGetIngressVlanTranslation: the size is left alone when the array fills. */
    method VendorGetVlanTranslation(lPort: U16, max: int) returns (rc: int, ts: seq<Trans>, size: int)
      ensures rc == if lPort in ports then RC_OK else RC_FAIL
      ensures lPort in ports ==> Reports(recs, ports[lPort].pPort, max, ts) && size == |ts|
      ensures lPort !in ports ==> ts == [] && size == max
    {
      if lPort !in ports { return RC_FAIL, [], max; }
      ts, size := Collect(ports[lPort].pPort, max);
      ShownReported(recs, ports[lPort].pPort, max);
      return RC_OK, ts, size;
    }

    method Collect(p: U32, max: int) returns (ts: seq<Trans>, size: int)
      ensures ts == Shown(On(recs, p), max) && size == |ts|
    {
      ts, size := [], max;
      for k := 0 to |recs|
        invariant ts == On(recs[..k], p) && size == max
        invariant max > 0 ==> |ts| < max
      {
        assert recs[..k + 1][..k] == recs[..k];
        if recs[k].portId == p {
          ts := ts + [recs[k].trans];
          if |ts| == max {
            OnConcat(recs[..k + 1], recs[k + 1..], p);
            assert recs == recs[..k + 1] + recs[k + 1..];
            return;
          }
        }
      }
      assert recs[..|recs|] == recs;
      size := |ts|;
    }

    method Replay(handles: Handles, saved: seq<Record>, rs: seq<Reply>) returns (status: bool)
      requires |saved| == |rs| && Now() == EMPTY
      modifies this
      ensures (Now(), status) == Restored(stage, ports, handles, saved, rs, |rs|)
    {
      for n := 0 to |saved|
        invariant (Now(), true) == Restored(stage, ports, handles, saved, rs, n)
      {
        var l := GetLogicalPort(ports, 0, saved[n].portId);
        if l.None? {
          StaysFailed(stage, ports, handles, saved, rs, n + 1, |rs|);
          return false;
        }
        var rc := VendorSetVlanTranslation(handles, Low16(l.value), saved[n].trans, rs[n]);
        if rc != RC_OK {
          StaysFailed(stage, ports, handles, saved, rs, n + 1, |rs|);
          return false;
        }
      }
      return true;
    }
  }

  lemma {:induction false} StaysFailed(
      stage: Stage, ports: PortMap, handles: Handles, saved: seq<Record>, rs: seq<Reply>, k: nat, n: nat)
    requires k <= n <= |saved| == |rs| && !Restored(stage, ports, handles, saved, rs, k).1
    ensures Restored(stage, ports, handles, saved, rs, n) == Restored(stage, ports, handles, saved, rs, k)
    decreases n
  {
    if k < n { StaysFailed(stage, ports, handles, saved, rs, k, n - 1); }
  }

  /** aclWarmBootRestoreHandler over the loaded record lists. */
  method AclWarmBootRestore(
      ing: TranslationTable, egr: TranslationTable, handles: Handles, ingress: seq<Record>, egress: seq<Record>,
      ri: seq<Reply>, re: seq<Reply>)
    returns (status: bool)
    requires ing != egr && ing.stage.Ingress? && egr.stage.Egress? && ing.ports == egr.ports
    requires ing.Now() == EMPTY && egr.Now() == EMPTY && |ingress| == |ri| && |egress| == |re|
    modifies ing, egr
    ensures (ing.Now(), egr.Now(), status) == RestoredBoth(ing.ports, handles, ingress, egress, ri, re)
  {
    status := ing.Replay(handles, ingress, ri);
    if status {
      status := egr.Replay(handles, egress, re);
    }
  }
}
