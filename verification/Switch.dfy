/** Filling the tables at start-up and replaying the hardware FDB after a warm restart (esalSaiSwitch.cc). */
module Switch {
  import opened Sai
  import opened PortTable
  import opened Fdb
  import opened Slots
  import Bridge

  /** One index of the hardware FDB as a pass reads it. */
  datatype HwEntry = HwEntry(
    readOk: bool,
    valid: bool,
    mac: Mac,
    vlanId: U16,
    portNum: U32,
    isStatic: bool,
    action: Option<nat>)

  const ENTRY_ATTR_PACKET_ACTION := 1

  /** The LEARNED notification made for a hardware entry. `vlanBase` is the object type shifted into place. */
  function Notice(vlanBase: Oid, bridge: Bridge.Table, h: HwEntry, bridgePortSai: Oid): Event
    requires h.action.Some?
  {
    Event(bridge, Learned, h.mac, vlanBase + h.vlanId,
      [Attr(ENTRY_ATTR_TYPE, if h.isStatic then 1 else 0), Attr(ENTRY_ATTR_BRIDGE_PORT_ID, bridgePortSai),
       Attr(ENTRY_ATTR_PACKET_ACTION, h.action.value)])
  }

  /** The notifications one pass over the hardware FDB raises, and whether it got to the end: a failed read, a
      port without a bridge port or an unknown command stops it. */
  function Notices(vlanBase: Oid, bridge: Bridge.Table, hw: seq<HwEntry>): (seq<Event>, bool) {
    if hw == [] then ([], true)
    else
      var h := hw[0];
      if !h.readOk then ([], false)
      else if !h.valid then Notices(vlanBase, bridge, hw[1..])
      else
        var o := Bridge.BridgeSaiFor(bridge, Low16(h.portNum));
        if o.None? || h.action.None? then ([], false)
        else
          var (evs, ok) := Notices(vlanBase, bridge, hw[1..]);
          ([Notice(vlanBase, bridge, h, o.value)] + evs, ok)
  }

  /** The notification resolves to the port its bridge-port handle is first listed for, and that is the hardware
      entry's own port exactly when no earlier bridge entry carries the handle of the port's first entry. */
  lemma NoticeFindsPort(vlanBase: Oid, bridge: Bridge.Table, h: HwEntry, o: Oid)
    requires h.action.Some? && Bridge.BridgeSaiFor(bridge, Low16(h.portNum)) == Some(o)
    ensures var port := PortInAttr(bridge, ENTRY_ATTR_BRIDGE_PORT_ID, Notice(vlanBase, bridge, h, o).attrs);
            && port == Bridge.PortIdFor(bridge, o) && port.Some?
            && (port == Some(Low16(h.portNum)) <==> Bridge.Unambiguous(bridge, Low16(h.portNum)))
  {
    var attrs := Notice(vlanBase, bridge, h, o).attrs;
    assert attrs[0].id != ENTRY_ATTR_BRIDGE_PORT_ID && attrs[1].id == ENTRY_ATTR_BRIDGE_PORT_ID;
    assert FirstWhere(attrs, (a: Attr) => a.id == ENTRY_ATTR_BRIDGE_PORT_ID) == 1;
    Bridge.PortIdRoundTrip(bridge, Low16(h.portNum));
  }

  /** Read back by attribute id, the notification says whether the entry is static, and what becomes of packets. */
  lemma NoticeCarries(vlanBase: Oid, bridge: Bridge.Table, h: HwEntry, o: Oid, i: nat)
    requires h.action.Some?
    ensures var attrs := Notice(vlanBase, bridge, h, o).attrs;
            && (FirstAttr(attrs, ENTRY_ATTR_TYPE, i) ==> i < |attrs| && (attrs[i].oid == 1 <==> h.isStatic))
            && (FirstAttr(attrs, ENTRY_ATTR_PACKET_ACTION, i) ==> i < |attrs| && attrs[i].oid == h.action.value)
  {
    var attrs := Notice(vlanBase, bridge, h, o).attrs;
    assert attrs[0].id == ENTRY_ATTR_TYPE && attrs[2].id == ENTRY_ATTR_PACKET_ACTION;
  }

  /** The pass stops at this slot: it cannot be read, or it is valid and its port has no bridge port or its command is
      unknown. */
  predicate Blocks(bridge: Bridge.Table, h: HwEntry) {
    !h.readOk || (h.valid && (Bridge.BridgeSaiFor(bridge, Low16(h.portNum)).None? || h.action.None?))
  }

  /** Where the pass stops: the first slot that blocks, or the end. */
  function StopAt(bridge: Bridge.Table, hw: seq<HwEntry>): (i: nat)
    ensures i <= |hw|
    ensures i < |hw| ==> Blocks(bridge, hw[i])
    ensures forall j :: 0 <= j < i ==> !Blocks(bridge, hw[j])
  {
    FirstWhere(hw, (h: HwEntry) => Blocks(bridge, h))
  }

  /** The valid slots, in their order. */
  function ValidOnes(hw: seq<HwEntry>): (r: seq<HwEntry>)
    ensures forall h :: h in r <==> h in hw && h.valid
  {
    if hw == [] then [] else (if hw[0].valid then [hw[0]] else []) + ValidOnes(hw[1..])
  }

  /** The event learns the slot's MAC, on the slot's VLAN, on the port its bridge port is listed for. */
  ghost predicate Learns(vlanBase: Oid, bridge: Bridge.Table, h: HwEntry, ev: Event) {
    var o := Bridge.BridgeSaiFor(bridge, Low16(h.portNum));
    && ev.kind == Learned && ev.mac == h.mac && ev.bvId == vlanBase + h.vlanId && ev.bridge == bridge
    && o.Some? && PortInAttr(bridge, ENTRY_ATTR_BRIDGE_PORT_ID, ev.attrs) == Bridge.PortIdFor(bridge, o.value)
  }

  lemma NoticeLearns(vlanBase: Oid, bridge: Bridge.Table, h: HwEntry, o: Oid)
    requires h.action.Some? && Bridge.BridgeSaiFor(bridge, Low16(h.portNum)) == Some(o)
    ensures Learns(vlanBase, bridge, h, Notice(vlanBase, bridge, h, o))
  {
    NoticeFindsPort(vlanBase, bridge, h, o);
  }

  /** One event for each slot, in order. */
  ghost predicate EachLearns(vlanBase: Oid, bridge: Bridge.Table, hs: seq<HwEntry>, evs: seq<Event>)
    decreases evs
  {
    && |evs| == |hs|
    && (evs != [] ==>
          Learns(vlanBase, bridge, hs[0], evs[0]) && EachLearns(vlanBase, bridge, hs[1..], evs[1..]))
  }

  lemma EachLearnsCons(vlanBase: Oid, bridge: Bridge.Table, h: HwEntry, hs: seq<HwEntry>, ev: Event, evs: seq<Event>)
    requires Learns(vlanBase, bridge, h, ev) && EachLearns(vlanBase, bridge, hs, evs)
    ensures EachLearns(vlanBase, bridge, [h] + hs, [ev] + evs)
  {
    assert ([h] + hs)[1..] == hs && ([ev] + evs)[1..] == evs;
  }

  /** What the first slot adds to a pass it does not stop. */
  lemma NoticesNext(vlanBase: Oid, bridge: Bridge.Table, hw: seq<HwEntry>)
    requires hw != []
    ensures Blocks(bridge, hw[0]) ==> Notices(vlanBase, bridge, hw) == ([], false)
    ensures !Blocks(bridge, hw[0]) ==>
              var (rest, ok) := Notices(vlanBase, bridge, hw[1..]);
              if !hw[0].valid then Notices(vlanBase, bridge, hw) == (rest, ok)
              else exists ev ::
                Learns(vlanBase, bridge, hw[0], ev) && Notices(vlanBase, bridge, hw) == ([ev] + rest, ok)
  {
    if !Blocks(bridge, hw[0]) && hw[0].valid {
      NoticeLearns(vlanBase, bridge, hw[0], Bridge.BridgeSaiFor(bridge, Low16(hw[0].portNum)).value);
    }
  }

  /** What a pass notifies: the j-th notification is the one of the j-th valid slot before the first that blocks, no
      other slot has one, and the pass completes exactly when no slot blocks. */
  lemma {:induction false} NoticesExact(vlanBase: Oid, bridge: Bridge.Table, hw: seq<HwEntry>)
    ensures var (evs, ok) := Notices(vlanBase, bridge, hw);
            && (ok <==> StopAt(bridge, hw) == |hw|)
            && EachLearns(vlanBase, bridge, ValidOnes(hw[..StopAt(bridge, hw)]), evs)
  {
    var stop := StopAt(bridge, hw);
    if hw != [] {
      NoticesNext(vlanBase, bridge, hw);
      if Blocks(bridge, hw[0]) {
        assert stop == 0;
      } else {
        NoticesExact(vlanBase, bridge, hw[1..]);
        StopAtTail(bridge, hw);
        assert hw[..stop][1..] == hw[1..][..stop - 1] && hw[..stop][0] == hw[0];
        var rest, hs := Notices(vlanBase, bridge, hw[1..]).0, ValidOnes(hw[1..][..stop - 1]);
        if hw[0].valid {
          var ev :| Learns(vlanBase, bridge, hw[0], ev) && Notices(vlanBase, bridge, hw).0 == [ev] + rest;
          EachLearnsCons(vlanBase, bridge, hw[0], hs, ev, rest);
        } else {
          assert [] + hs == hs;
        }
      }
    }
  }

  lemma StopAtTail(bridge: Bridge.Table, hw: seq<HwEntry>)
    requires hw != [] && !Blocks(bridge, hw[0])
    ensures StopAt(bridge, hw) == StopAt(bridge, hw[1..]) + 1
  {
    var i, k := StopAt(bridge, hw), StopAt(bridge, hw[1..]);
    assert forall j :: 0 <= j < |hw| - 1 ==> hw[1..][j] == hw[j + 1];
    assert i > 0;
    assert i - 1 < |hw| - 1 ==> Blocks(bridge, hw[1..][i - 1]);
    assert k < |hw| - 1 ==> Blocks(bridge, hw[k + 1]);
  }

  /** The pass completes exactly when every slot can be read and every valid one has a bridge port and a command. */
  lemma PassCompletes(vlanBase: Oid, bridge: Bridge.Table, hw: seq<HwEntry>)
    ensures Notices(vlanBase, bridge, hw).1 <==>
              forall i :: 0 <= i < |hw| ==>
                && hw[i].readOk
                && (hw[i].valid ==> Bridge.BridgeSaiFor(bridge, Low16(hw[i].portNum)).Some? && hw[i].action.Some?)
  {
    NoticesExact(vlanBase, bridge, hw);
    assert forall i :: 0 <= i < |hw| && Blocks(bridge, hw[i]) ==> StopAt(bridge, hw) <= i;
  }

  /** The entry is that of a valid hardware entry: its MAC, its VLAN, and the port its bridge port is listed for. */
  ghost predicate CameFrom(vlanBase: Oid, bridge: Bridge.Table, h: HwEntry, e: FdbEntry) {
    var o := Bridge.BridgeSaiFor(bridge, Low16(h.portNum));
    && h.valid && e.mac == h.mac && e.vlanSai == vlanBase + h.vlanId
    && o.Some? && Bridge.PortIdFor(bridge, o.value) == Some(e.port)
  }

  lemma LearnedFrom(vlanBase: Oid, bridge: Bridge.Table, h: HwEntry, s: Fdb.Table, ev: Event, e: FdbEntry)
    requires h.valid && Learns(vlanBase, bridge, h, ev) && e in Apply(s, ev) && e !in s
    ensures CameFrom(vlanBase, bridge, h, e)
  {
  }

  lemma {:induction false} EventsFrom(
      vlanBase: Oid, bridge: Bridge.Table, hs: seq<HwEntry>, evs: seq<Event>, s: Fdb.Table, e: FdbEntry)
    requires EachLearns(vlanBase, bridge, hs, evs) && (forall h :: h in hs ==> h.valid)
    requires e in Fdb.Run(s, evs) && e !in s
    ensures exists h :: h in hs && CameFrom(vlanBase, bridge, h, e)
    decreases evs
  {
    if evs != [] {
      assert hs[0] in hs;
      if e in Apply(s, evs[0]) {
        LearnedFrom(vlanBase, bridge, hs[0], s, evs[0], e);
      } else {
        EventsFrom(vlanBase, bridge, hs[1..], evs[1..], Apply(s, evs[0]), e);
        var h :| h in hs[1..] && CameFrom(vlanBase, bridge, h, e);
        assert h in hs;
      }
    }
  }

  /** Nothing else gets in: every entry a pass adds, completed or not, comes from a valid hardware entry that the pass
      reached. */
  lemma ReNotifyOnly(s: Fdb.Table, vlanBase: Oid, bridge: Bridge.Table, hw: seq<HwEntry>, e: FdbEntry)
    requires e in Fdb.Run(s, Notices(vlanBase, bridge, hw).0) && e !in s
    ensures exists i :: 0 <= i < StopAt(bridge, hw) && CameFrom(vlanBase, bridge, hw[i], e)
  {
    NoticesExact(vlanBase, bridge, hw);
    var reached := hw[..StopAt(bridge, hw)];
    EventsFrom(vlanBase, bridge, ValidOnes(reached), Notices(vlanBase, bridge, hw).0, s, e);
    var h :| h in ValidOnes(reached) && CameFrom(vlanBase, bridge, h, e);
    assert h in reached;
    var i :| 0 <= i < |reached| && reached[i] == h;
    assert hw[i] == h;
  }

  /** Every valid entry of a completed pass has its notification. */
  lemma {:induction false} NoticesCover(vlanBase: Oid, bridge: Bridge.Table, hw: seq<HwEntry>, k: nat)
    requires Notices(vlanBase, bridge, hw).1 && k < |hw| && hw[k].valid
    ensures var o := Bridge.BridgeSaiFor(bridge, Low16(hw[k].portNum));
            && o.Some? && hw[k].action.Some?
            && Notice(vlanBase, bridge, hw[k], o.value) in Notices(vlanBase, bridge, hw).0
  {
    if k > 0 {
      NoticesCover(vlanBase, bridge, hw[1..], k - 1);
    }
  }

  lemma {:induction false} NoticesLearned(vlanBase: Oid, bridge: Bridge.Table, hw: seq<HwEntry>)
    ensures AllLearned(Notices(vlanBase, bridge, hw).0)
  {
    if hw != [] { NoticesLearned(vlanBase, bridge, hw[1..]); }
  }

  /** After a completed pass every valid hardware entry is recorded under its MAC and the port its notification
      resolves to, unless the table filled up; and that is its own port exactly when its own port is unambiguous,
      whatever the other ports share. */
  lemma ReNotifyRecords(s: Fdb.Table, vlanBase: Oid, bridge: Bridge.Table, hw: seq<HwEntry>, k: nat)
    requires Notices(vlanBase, bridge, hw).1 && k < |hw| && hw[k].valid
    ensures var t := Fdb.Run(s, Notices(vlanBase, bridge, hw).0);
            var o := Bridge.BridgeSaiFor(bridge, Low16(hw[k].portNum));
            && o.Some? && Bridge.PortIdFor(bridge, o.value).Some?
            && var port := Bridge.PortIdFor(bridge, o.value).value;
               && (Fdb.KeyIndex(t, hw[k].mac, port) < |t| || |t| >= MAX_FDB_TABLE_SIZE)
               && (port == Low16(hw[k].portNum) <==> Bridge.Unambiguous(bridge, Low16(hw[k].portNum)))
  {
    var evs := Notices(vlanBase, bridge, hw).0;
    NoticesCover(vlanBase, bridge, hw, k);
    NoticesLearned(vlanBase, bridge, hw);
    var o := Bridge.BridgeSaiFor(bridge, Low16(hw[k].portNum)).value;
    var i :| 0 <= i < |evs| && evs[i] == Notice(vlanBase, bridge, hw[k], o);
    RunSettles(s, evs, i);
    NoticeFindsPort(vlanBase, bridge, hw[k], o);
  }

  /** Two passes see the same hardware table, except that reads may fail at other places. */
  ghost predicate SameHardware(a: seq<HwEntry>, b: seq<HwEntry>) {
    |a| == |b| && forall i :: 0 <= i < |a| ==> b[i] == a[i].(readOk := b[i].readOk)
  }

  lemma {:induction false} NoticesPrefix(vlanBase: Oid, bridge: Bridge.Table, a: seq<HwEntry>, b: seq<HwEntry>)
    requires SameHardware(a, b) && Notices(vlanBase, bridge, a).1
    ensures Notices(vlanBase, bridge, b).0 <= Notices(vlanBase, bridge, a).0
  {
    if a != [] {
      assert b[0] == a[0].(readOk := b[0].readOk);
      NoticesPrefix(vlanBase, bridge, a[1..], b[1..]);
    }
  }

  /** What VendorConfigEnd leaves: a second pass follows a completed first one. */
  function ConfigEnd(
      s: Fdb.Table, vlanBase: Oid, bridge: Bridge.Table, first: seq<HwEntry>, second: seq<HwEntry>): Fdb.Table {
    var (evs, ok) := Notices(vlanBase, bridge, first);
    var t := Fdb.Run(s, evs);
    if ok then Fdb.Run(t, Notices(vlanBase, bridge, second).0) else t
  }

  /** The second pass never changes anything, wherever it stops. */
  lemma SecondPassIdle(s: Fdb.Table, vlanBase: Oid, bridge: Bridge.Table, first: seq<HwEntry>, second: seq<HwEntry>)
    requires SameHardware(first, second)
    ensures ConfigEnd(s, vlanBase, bridge, first, second) == Fdb.Run(s, Notices(vlanBase, bridge, first).0)
  {
    var (evs, ok) := Notices(vlanBase, bridge, first);
    if ok {
      NoticesPrefix(vlanBase, bridge, first, second);
      NoticesLearned(vlanBase, bridge, first);
      var again := Notices(vlanBase, bridge, second).0;
      assert again == evs[..|again|];
      ReplayIdempotent(s, evs, |again|);
    }
  }

  /** A first pass that does not complete is the only one: every entry added comes from a slot it reached. After a
      completed one, the second records what it is read from, whatever the hardware says by then: when it completes,
      every valid entry is there or the table is full. */
  lemma SecondPassFollows(
      s: Fdb.Table, vlanBase: Oid, bridge: Bridge.Table, first: seq<HwEntry>, second: seq<HwEntry>, e: FdbEntry, k: nat)
    ensures var t := ConfigEnd(s, vlanBase, bridge, first, second);
            && (StopAt(bridge, first) < |first| && e in t && e !in s ==>
                  exists i :: 0 <= i < StopAt(bridge, first) && CameFrom(vlanBase, bridge, first[i], e))
            && (StopAt(bridge, first) == |first| && StopAt(bridge, second) == |second|
                && k < |second| && second[k].valid ==>
                  Present(t, bridge, second[k]) || |t| >= MAX_FDB_TABLE_SIZE)
  {
    var (evs, ok) := Notices(vlanBase, bridge, first);
    NoticesExact(vlanBase, bridge, first);
    NoticesExact(vlanBase, bridge, second);
    if !ok && e in Fdb.Run(s, evs) && e !in s {
      ReNotifyOnly(s, vlanBase, bridge, first, e);
    }
    if ok && Notices(vlanBase, bridge, second).1 && k < |second| && second[k].valid {
      ReNotifyRecords(Fdb.Run(s, evs), vlanBase, bridge, second, k);
    }
  }

  /** The entry's MAC is in the table on the port its bridge port is listed for. */
  ghost predicate Present(t: Fdb.Table, bridge: Bridge.Table, h: HwEntry) {
    var o := Bridge.BridgeSaiFor(bridge, Low16(h.portNum));
    && o.Some? && Bridge.PortIdFor(bridge, o.value).Some?
    && Fdb.KeyIndex(t, h.mac, Bridge.PortIdFor(bridge, o.value).value) < |t|
  }

  class SwitchDriver {
    const fdb: Fdb.FdbTable

    constructor ()
      ensures fresh(fdb) && fresh(fdb.table) && fdb.Valid() && fdb.Entries() == []
    {
      fdb := new Fdb.FdbTable();
    }

    /** esalWarmRestartReNotifyFdb */
    method WarmRestartReNotifyFdb(vlanBase: Oid, bridge: Bridge.Table, hw: seq<HwEntry>) returns (rc: int)
      requires fdb.Valid()
      modifies fdb, fdb.table
      ensures fdb.Valid()
      ensures var (evs, ok) := Notices(vlanBase, bridge, hw);
              fdb.Entries() == Fdb.Run(old(fdb.Entries()), evs) && rc == if ok then RC_OK else RC_FAIL
    {
      for i := 0 to |hw|
        invariant fdb.Valid()
        invariant var (evs, ok) := Notices(vlanBase, bridge, hw);
                  var (rest, ok1) := Notices(vlanBase, bridge, hw[i..]);
                  ok1 == ok && Fdb.Run(old(fdb.Entries()), evs) == Fdb.Run(fdb.Entries(), rest)
      {
        var h := hw[i];
        assert hw[i..][0] == h && hw[i..][1..] == hw[i + 1..];
        if !h.readOk { return RC_FAIL; }
        if !h.valid { continue; }
        var o := Bridge.BridgeSaiFor(bridge, Low16(h.portNum));
        if o.None? || h.action.None? { return RC_FAIL; }
        ghost var rest := Notices(vlanBase, bridge, hw[i + 1..]).0;
        assert ([Notice(vlanBase, bridge, h, o.value)] + rest)[1..] == rest;
        fdb.AlterForwardingTable(Notice(vlanBase, bridge, h, o.value));
      }
      return RC_OK;
    }

    method VendorConfigEnd(vlanBase: Oid, bridge: Bridge.Table, first: seq<HwEntry>, second: seq<HwEntry>)
      requires fdb.Valid()
      modifies fdb, fdb.table
      ensures fdb.Valid() && fdb.Entries() == ConfigEnd(old(fdb.Entries()), vlanBase, bridge, first, second)
    {
      var status := WarmRestartReNotifyFdb(vlanBase, bridge, first);
      if status != RC_OK { return; }
      status := WarmRestartReNotifyFdb(vlanBase, bridge, second);
    }

    /** The table-filling loops of esalInitSwitch, from empty tables: `list` is the switch's port list, `objs` the
        bridge's, and addOk says which of the port additions SAI lets through. The port table's capacity is what
        keeps the bridge table's unchecked slot write in range. */
    method InitTables(
        ports: PortTable, bridge: Bridge.BridgeTable, list: seq<Oid>, addOk: seq<bool>,
        query: bool, objs: Option<seq<Oid>>)
        returns (rc: int)
      requires ports.Valid() && bridge.Valid() && ports.Entries() == [] && bridge.Entries() == []
      requires |list| == |addOk| && (objs.Some? ==> |objs.value| == |list|)
      modifies ports, ports.slots, bridge, bridge.table
      ensures ports.Valid() && bridge.Valid()
      ensures rc == RC_OK <==>
                && |list| <= MAX_PORT_TABLE_SIZE && NULL_OID !in list && (forall i :: 0 <= i < |list| ==> addOk[i])
                && query && objs.Some?
      ensures rc == RC_OK ==>
                && ports.Entries() == Filled(list)
                && bridge.Entries() == Bridge.Paired(ports.Entries(), objs.value, |list|)
                && (forall i :: 0 <= i < |list| ==> Bridge.BridgeSaiFor(bridge.Entries(), PortIdOf(list[i])).Some?)
      ensures rc == RC_OK ==>
                forall i :: 0 <= i < |list| ==>
                  && ports.Entries()[i].portSai == list[i] && ports.Entries()[i].portId == PortIdOf(list[i])
                  && bridge.Entries()[i] == Bridge.BridgeMember(PortIdOf(list[i]), 0, list[i], objs.value[i])
    {
      var ok := FillPorts(ports, list, addOk);
      if !ok { return RC_FAIL; }
      if NULL_OID !in list && objs.Some? { InitialPairs(ports.Entries(), list, objs.value); }
      ok := bridge.BridgePortListInit(ports.slots[..ports.size], query, objs, |list|);
      if !ok { return RC_FAIL; }
      ok := AllBridged(ports, bridge, list);
      return if ok then RC_OK else RC_FAIL;
    }

    lemma InitialPairs(entries: seq<PortEntry>, list: seq<Oid>, objs: seq<Oid>)
      requires entries == Filled(list)
      requires |objs| == |list| <= MAX_PORT_TABLE_SIZE && NULL_OID !in list
      ensures Bridge.InitFrom([], entries, objs, 0, |list|) == (Bridge.Paired(entries, objs, |list|), true)
      ensures forall k :: 0 <= k < |list| ==>
                Bridge.BridgeSaiFor(Bridge.Paired(entries, objs, |list|), PortIdOf(list[k])).Some?
    {
      assert forall k :: 0 <= k < |list| ==> entries[k].portSai == list[k] && list[k] in list;
      Bridge.InitPairs(entries, objs, 0, |list|);
      assert Bridge.Paired(entries, objs, 0) == [];
      var t := Bridge.Paired(entries, objs, |list|);
      assert forall k :: 0 <= k < |list| ==> t[k].portId == PortIdOf(list[k]);
    }

    method FillPorts(ports: PortTable, list: seq<Oid>, addOk: seq<bool>) returns (ok: bool)
      requires ports.Valid() && ports.Entries() == [] && |addOk| == |list|
      modifies ports, ports.slots
      ensures ports.Valid()
      ensures ok <==> |list| <= MAX_PORT_TABLE_SIZE && forall i :: 0 <= i < |list| ==> addOk[i]
      ensures ok ==> ports.Entries() == Filled(list)
    {
      for i := 0 to |list|
        invariant ports.Valid() && i <= MAX_PORT_TABLE_SIZE
        invariant ports.Entries() == Filled(list[..i])
        invariant forall k :: 0 <= k < i ==> addOk[k]
      {
        ok := ports.AddEntry(list[i], addOk[i]);
        if !ok { return; }
        assert list[..i + 1] == list[..i] + [list[i]];
      }
      assert list[..|list|] == list;
      return true;
    }

    /** Every port has a handle, and a bridge port by its 16-bit id. */
    method AllBridged(ports: PortTable, bridge: Bridge.BridgeTable, list: seq<Oid>) returns (ok: bool)
      requires ports.Valid() && bridge.Valid()
      requires ports.Entries() == Filled(list)
      ensures ok <==>
                && NULL_OID !in list
                && forall i :: 0 <= i < |list| ==> Bridge.BridgeSaiFor(bridge.Entries(), PortIdOf(list[i])).Some?
    {
      for i := 0 to |list|
        invariant forall k :: 0 <= k < i ==> list[k] != NULL_OID
        invariant forall k :: 0 <= k < i ==> Bridge.BridgeSaiFor(bridge.Entries(), PortIdOf(list[k])).Some?
      {
        assert ports.slots[i] == ports.Entries()[i] == Appended(list[i]);
        if ports.slots[i].portSai == NULL_OID { return false; }
        var r := bridge.FindBridgePortSaiFromPortId(PortIdOf(ports.slots[i].portSai));
        if r.None? { return false; }
      }
      return true;
    }
  }
}
