/** VLAN membership and tagging, software map against hardware objects (esalSaiVlan.cc). */
module Vlan {
  import opened Sai
  import opened Slots
  import opened PortMap
  import opened PortTable

  datatype Member = Member(portId: U16, memberSai: Oid)
  datatype VlanEntry = VlanEntry(vlanSai: Oid, ports: seq<Member>, defaultPortId: U16)

  const NO_PORT: U16 := 0xffff

  /** A live VLAN member object; `port` is the port behind its bridge port. */
  datatype HwMember = HwMember(vlanSai: Oid, bridgePort: Oid, port: U16, untagged: bool)

  /** vlanMap and tagPorts, then the hardware: live VLANs, live members, default VLAN per port handle. */
  datatype State = State(
    vlans: map<U16, VlanEntry>,
    tagPorts: seq<U16>,
    hwVlans: map<Oid, U16>,
    hwMembers: map<Oid, HwMember>,
    pvid: map<Oid, U16>)

  const EMPTY := State(map[], [], map[], map[], map[])

  /** The tables a call looks handles up in: port handles, and bridge-port handles by port id. */
  datatype Env = Env(handles: Handles, bridge: map<U16, Oid>)

  /** Index of the first member on port p (a 32-bit number), or the length. */
  function IndexOf(ports: seq<Member>, p: nat): (i: nat)
    ensures i <= |ports|
    ensures i < |ports| ==> ports[i].portId == p
    ensures forall j :: 0 <= j < i ==> ports[j].portId != p
  {
    FirstWhere(ports, (m: Member) => m.portId == p)
  }

  // The steps.

  function CreateStep(s: State, vid: U16, query: bool, created: Option<Oid>): (State, int) {
    if vid in s.vlans then (s, RC_OK)
    else if !query || created.None? then (s, RC_FAIL)
    else (s.(vlans := s.vlans[vid := VlanEntry(created.value, [], NO_PORT)],
             hwVlans := s.hwVlans[created.value := vid]), RC_OK)
  }

  function DeleteStep(s: State, vid: U16, query: bool, removed: bool): (State, int) {
    if vid !in s.vlans then (s, RC_OK)
    else if !query || !removed then (s, RC_FAIL)
    else (Deleted(s, vid), RC_OK)
  }

  /** The state after a granted removal. */
  function Deleted(s: State, vid: U16): State
    requires vid in s.vlans
  {
    s.(vlans := s.vlans - {vid}, hwVlans := s.hwVlans - {s.vlans[vid].vlanSai})
  }

  /** A member object is created on physical port p and recorded, its port number narrowed to 16 bits. */
  function Joined(s: State, vid: U16, p: U32, bridgePort: Oid, m: Oid): State
    requires vid in s.vlans
  {
    var e := s.vlans[vid];
    s.(vlans := s.vlans[vid := e.(ports := e.ports + [Member(Low16(p), m)])],
       hwMembers := s.hwMembers[m := HwMember(e.vlanSai, bridgePort, Low16(p), p in s.tagPorts)])
  }

  /** One turn of the loop of VendorAddPortsToVlan: the new state, and whether the loop goes on. */
  function AddOne(ports: PortMap, env: Env, s: State, vid: U16, lPort: U16, created: Option<Oid>): (State, bool)
    requires vid in s.vlans
  {
    if lPort !in ports then (s, true)
    else
      var p := ports[lPort].pPort;
      if IndexOf(s.vlans[vid].ports, p) < |s.vlans[vid].ports| then (s, true)
      else if Low16(p) !in env.bridge then (s, false)
      else if created.None? then (s, true)
      else (Joined(s, vid, p, env.bridge[Low16(p)], created.value), true)
  }

  function Reply<T>(rs: seq<T>, refused: T): T {
    if rs == [] then refused else rs[0]
  }

  function Rest<T>(rs: seq<T>): seq<T> {
    if rs == [] then [] else rs[1..]
  }

  /** The whole loop; a call without a reply is refused. */
  function AddLoop(
      ports: PortMap, env: Env, s: State, vid: U16, lPorts: seq<U16>, created: seq<Option<Oid>>): (State, int)
    requires vid in s.vlans
    decreases lPorts
  {
    if lPorts == [] then (s, RC_OK)
    else
      var (s1, more) := AddOne(ports, env, s, vid, lPorts[0], Reply(created, None));
      if more then AddLoop(ports, env, s1, vid, lPorts[1..], Rest(created)) else (s1, RC_FAIL)
  }

  function AddStep(
      ports: PortMap, env: Env, s: State, vid: U16, query: bool, lPorts: seq<U16>,
      created: seq<Option<Oid>>): (State, int) {
    if vid !in s.vlans then (s, RC_OK)
    else if !query then (s, RC_FAIL)
    else AddLoop(ports, env, s, vid, lPorts, created)
  }

  function Without(ports: seq<Member>, i: nat): seq<Member>
    requires i < |ports|
  {
    ports[..i] + ports[i + 1..]
  }

  function Parted(s: State, vid: U16, i: nat): State
    requires vid in s.vlans && i < |s.vlans[vid].ports|
  {
    var e := s.vlans[vid];
    s.(vlans := s.vlans[vid := e.(ports := Without(e.ports, i))], hwMembers := s.hwMembers - {e.ports[i].memberSai})
  }

  function RemoveOne(ports: PortMap, s: State, vid: U16, lPort: U16, removed: bool): State
    requires vid in s.vlans
  {
    if lPort !in ports then s
    else
      var i := IndexOf(s.vlans[vid].ports, ports[lPort].pPort);
      if i == |s.vlans[vid].ports| || !removed then s else Parted(s, vid, i)
  }

  function RemoveLoop(ports: PortMap, s: State, vid: U16, lPorts: seq<U16>, removed: seq<bool>): State
    requires vid in s.vlans
    decreases lPorts
  {
    if lPorts == [] then s
    else RemoveLoop(ports, RemoveOne(ports, s, vid, lPorts[0], Reply(removed, false)), vid, lPorts[1..], Rest(removed))
  }

  function RemoveStep(
      ports: PortMap, s: State, vid: U16, query: bool, lPorts: seq<U16>, removed: seq<bool>): (State, int) {
    if vid !in s.vlans then (s, RC_OK)
    else if !query then (s, RC_FAIL)
    else (RemoveLoop(ports, s, vid, lPorts, removed), RC_OK)
  }

  /** VLAN 0 need not exist: indexing the map then makes an entry for it, with the null handle. */
  function DefaultStep(
      ports: PortMap, env: Env, s: State, lPort: U16, vid: U16, query: bool, set_: bool): (State, int) {
    if lPort !in ports then (s, RC_FAIL)
    else
      var p := Low16(ports[lPort].pPort);
      if (vid != 0 && vid !in s.vlans) || !query || p !in env.handles || !set_ then (s, RC_FAIL)
      else
        var e := if vid in s.vlans then s.vlans[vid] else VlanEntry(NULL_OID, [], NO_PORT);
        (s.(vlans := s.vlans[vid := e.(defaultPortId := p)], pvid := s.pvid[env.handles[p] := vid]), RC_OK)
  }

  /** The handles recorded for physical port p, over all VLANs. */
  function MembersOn(vlans: map<U16, VlanEntry>, p: nat): set<Oid> {
    set v, i | v in vlans && 0 <= i < |vlans[v].ports| && vlans[v].ports[i].portId == p :: vlans[v].ports[i].memberSai
  }

  function Untag(hw: map<Oid, HwMember>, ms: set<Oid>): map<Oid, HwMember> {
    map m | m in hw :: if m in ms then hw[m].(untagged := true) else hw[m]
  }

  /** `refused` are the member handles whose attribute set fails. */
  function TagStep(ports: PortMap, s: State, lPort: U16, query: bool, refused: set<Oid>): (State, int) {
    if lPort !in ports || !query then (s, RC_FAIL)
    else
      var p := ports[lPort].pPort;
      (s.(hwMembers := Untag(s.hwMembers, MembersOn(s.vlans, p) - refused),
          tagPorts := if p in s.tagPorts then s.tagPorts else s.tagPorts + [Low16(p)]), RC_OK)
  }

  // Software and hardware agree.

  ghost predicate Distinct(ports: seq<Member>) {
    forall i, j :: 0 <= i < j < |ports| ==> ports[i].portId != ports[j].portId
  }

  /** No member handle is listed twice. */
  ghost predicate Single(ports: seq<Member>) {
    forall i, j :: 0 <= i < j < |ports| ==> ports[i].memberSai != ports[j].memberSai
  }

  /** The VLAN a handle stands for; only VLAN 0 is ever recorded under a handle that is not live. */
  function VidOf(s: State, vlanSai: Oid): U16 {
    if vlanSai in s.hwVlans then s.hwVlans[vlanSai] else 0
  }

  ghost predicate VlansOk(s: State) {
    && NULL_OID !in s.hwVlans
    && (forall v :: v in s.vlans ==>
          if s.vlans[v].vlanSai in s.hwVlans then s.hwVlans[s.vlans[v].vlanSai] == v
          else v == 0 && s.vlans[v].vlanSai == NULL_OID)
    && (forall o :: o in s.hwVlans ==> s.hwVlans[o] in s.vlans && s.vlans[s.hwVlans[o]].vlanSai == o)
  }

  ghost predicate DistinctOk(s: State) {
    forall v :: v in s.vlans ==> Distinct(s.vlans[v].ports)
  }

  ghost predicate SingleOk(s: State) {
    forall v :: v in s.vlans ==> Single(s.vlans[v].ports)
  }

  /** Every record names a live member on its own VLAN and port. */
  ghost predicate RecordsLive(s: State) {
    forall v, m :: v in s.vlans && m in s.vlans[v].ports ==>
      && m.memberSai in s.hwMembers
      && s.hwMembers[m.memberSai].vlanSai == s.vlans[v].vlanSai
      && s.hwMembers[m.memberSai].port == m.portId
  }

  ghost predicate Recorded(s: State, o: Oid)
    requires o in s.hwMembers
  {
    var v := VidOf(s, s.hwMembers[o].vlanSai);
    v in s.vlans && s.vlans[v].vlanSai == s.hwMembers[o].vlanSai
    && Member(s.hwMembers[o].port, o) in s.vlans[v].ports
  }

  /** Every live member is recorded under its own VLAN and port. */
  ghost predicate LiveRecorded(s: State) {
    forall o :: o in s.hwMembers ==> Recorded(s, o)
  }

  ghost predicate Inv(s: State) {
    VlansOk(s) && SingleOk(s) && RecordsLive(s) && LiveRecorded(s)
  }

  ghost predicate MarkedOnce(s: State) {
    forall i, j :: 0 <= i < j < |s.tagPorts| ==> s.tagPorts[i] != s.tagPorts[j]
  }

  /** A hardware member is untagged exactly when its port has been marked for tagging. */
  ghost predicate UntaggedIffMarked(s: State) {
    forall o :: o in s.hwMembers ==> (s.hwMembers[o].untagged <==> s.hwMembers[o].port in s.tagPorts)
  }

  ghost predicate TagInv(s: State) {
    MarkedOnce(s) && UntaggedIffMarked(s)
  }

  /** A member handle is recorded once only, over all VLANs and positions. */
  lemma RecordedOnce(s: State, v: U16, i: nat, w: U16, j: nat)
    requires Inv(s) && v in s.vlans && w in s.vlans && i < |s.vlans[v].ports| && j < |s.vlans[w].ports|
    requires s.vlans[v].ports[i].memberSai == s.vlans[w].ports[j].memberSai
    ensures v == w && i == j
  {
    var a, b := s.vlans[v].ports[i], s.vlans[w].ports[j];
    assert a in s.vlans[v].ports && b in s.vlans[w].ports;
    assert s.vlans[v].vlanSai == s.vlans[w].vlanSai;
    assert v == w;
    assert Single(s.vlans[v].ports);
  }

  lemma CreatedVlans(s: State, vid: U16, vlanSai: Oid)
    requires VlansOk(s) && vid !in s.vlans && vlanSai != NULL_OID && vlanSai !in s.hwVlans
    ensures VlansOk(CreateStep(s, vid, true, Some(vlanSai)).0)
  {
  }

  lemma CreatedMembers(s: State, vid: U16, vlanSai: Oid)
    requires VlansOk(s) && RecordsLive(s) && LiveRecorded(s)
    requires vid !in s.vlans && vlanSai != NULL_OID && vlanSai !in s.hwVlans
    ensures var t := CreateStep(s, vid, true, Some(vlanSai)).0; RecordsLive(t) && LiveRecorded(t)
  {
    var t := CreateStep(s, vid, true, Some(vlanSai)).0;
    forall o | o in t.hwMembers ensures Recorded(t, o) {
      assert Recorded(s, o);
    }
  }

  lemma CreateInv(s: State, vid: U16, query: bool, created: Option<Oid>)
    requires Inv(s) && (created.Some? ==> created.value != NULL_OID && created.value !in s.hwVlans)
    ensures Inv(CreateStep(s, vid, query, created).0)
  {
    if vid !in s.vlans && query && created.Some? {
      CreatedVlans(s, vid, created.value);
      CreatedMembers(s, vid, created.value);
    }
  }

  /** The hardware refuses to remove a VLAN that still has members. */
  ghost predicate Vacant(s: State, vlanSai: Oid) {
    forall o :: o in s.hwMembers ==> s.hwMembers[o].vlanSai != vlanSai
  }

  lemma DeletedVlans(s: State, vid: U16)
    requires VlansOk(s) && vid in s.vlans
    ensures VlansOk(Deleted(s, vid))
  {
  }

  lemma DeletedMembers(s: State, vid: U16)
    requires VlansOk(s) && LiveRecorded(s) && vid in s.vlans && Vacant(s, s.vlans[vid].vlanSai)
    ensures LiveRecorded(Deleted(s, vid))
  {
    forall o | o in s.hwMembers ensures Recorded(Deleted(s, vid), o) {
      assert Recorded(s, o);
    }
  }

  lemma DeleteInv(s: State, vid: U16, query: bool, removed: bool)
    requires Inv(s) && (vid in s.vlans && removed ==> Vacant(s, s.vlans[vid].vlanSai))
    ensures Inv(DeleteStep(s, vid, query, removed).0)
  {
    if vid in s.vlans && removed {
      DeletedVlans(s, vid);
      DeletedMembers(s, vid);
    }
  }

  lemma JoinedRecords(s: State, vid: U16, p: U32, bridgePort: Oid, m: Oid)
    requires RecordsLive(s) && vid in s.vlans && m !in s.hwMembers
    ensures RecordsLive(Joined(s, vid, p, bridgePort, m))
  {
    var t := Joined(s, vid, p, bridgePort, m);
    forall v, x | v in t.vlans && x in t.vlans[v].ports
      ensures x.memberSai in t.hwMembers && t.hwMembers[x.memberSai].vlanSai == t.vlans[v].vlanSai
           && t.hwMembers[x.memberSai].port == x.portId
    {
      if v == vid && x !in s.vlans[v].ports {
        assert x == Member(Low16(p), m);
      } else {
        assert x in s.vlans[v].ports;
      }
    }
  }

  lemma JoinedRecorded(s: State, vid: U16, p: U32, bridgePort: Oid, m: Oid)
    requires VlansOk(s) && LiveRecorded(s) && vid in s.vlans && m !in s.hwMembers
    ensures LiveRecorded(Joined(s, vid, p, bridgePort, m))
  {
    var t := Joined(s, vid, p, bridgePort, m);
    forall o | o in t.hwMembers ensures Recorded(t, o) {
      if o == m {
        assert Member(Low16(p), m) == t.vlans[vid].ports[|s.vlans[vid].ports|];
      } else {
        assert Recorded(s, o);
      }
    }
  }

  lemma SingleAppend(s: State, vid: U16, p: U16, m: Oid)
    requires SingleOk(s) && RecordsLive(s) && vid in s.vlans && m !in s.hwMembers
    ensures Single(s.vlans[vid].ports + [Member(p, m)])
  {
    var ports := s.vlans[vid].ports;
    assert Single(ports);
    forall i | 0 <= i < |ports| ensures ports[i].memberSai != m {
      assert ports[i] in ports;
    }
  }

  lemma JoinedShape(s: State, vid: U16, p: U32, bridgePort: Oid, m: Oid)
    requires VlansOk(s) && SingleOk(s) && vid in s.vlans
    requires Single(s.vlans[vid].ports + [Member(Low16(p), m)])
    ensures VlansOk(Joined(s, vid, p, bridgePort, m)) && SingleOk(Joined(s, vid, p, bridgePort, m))
  {
  }

  lemma JoinedInv(s: State, vid: U16, p: U32, bridgePort: Oid, m: Oid)
    requires Inv(s) && vid in s.vlans && m !in s.hwMembers
    ensures Inv(Joined(s, vid, p, bridgePort, m))
  {
    SingleAppend(s, vid, Low16(p), m);
    JoinedShape(s, vid, p, bridgePort, m);
    JoinedRecords(s, vid, p, bridgePort, m);
    JoinedRecorded(s, vid, p, bridgePort, m);
  }

  lemma WithoutMembers(ports: seq<Member>, i: nat)
    requires i < |ports|
    ensures Distinct(ports) ==> Distinct(Without(ports, i))
    ensures Single(ports) ==> Single(Without(ports, i))
    ensures Single(ports) ==> forall m :: m in Without(ports, i) <==> m in ports && m != ports[i]
  {
    var after := Without(ports, i);
    assert forall k :: 0 <= k < |after| ==> after[k] == ports[if k < i then k else k + 1];
    forall m | m in ports && m != ports[i] ensures m in after {
      var k :| 0 <= k < |ports| && ports[k] == m;
      assert after[if k < i then k else k - 1] == m;
    }
  }

  lemma PartedMember(s: State, vid: U16, i: nat, m: Member)
    requires Inv(s) && vid in s.vlans && i < |s.vlans[vid].ports|
    ensures m in Without(s.vlans[vid].ports, i) <==> m in s.vlans[vid].ports && m != s.vlans[vid].ports[i]
  {
    assert Single(s.vlans[vid].ports);
    WithoutMembers(s.vlans[vid].ports, i);
  }

  /** The records that stay have other handles than the one that goes. */
  lemma PartedOther(s: State, vid: U16, i: nat, v: U16, m: Member)
    requires Inv(s) && vid in s.vlans && i < |s.vlans[vid].ports| && v in s.vlans
    requires m in s.vlans[v].ports && (v == vid ==> m != s.vlans[vid].ports[i])
    ensures m.memberSai != s.vlans[vid].ports[i].memberSai
  {
    var j :| 0 <= j < |s.vlans[v].ports| && s.vlans[v].ports[j] == m;
    if m.memberSai == s.vlans[vid].ports[i].memberSai { RecordedOnce(s, v, j, vid, i); }
  }

  lemma PartedRecords(s: State, vid: U16, i: nat)
    requires Inv(s) && vid in s.vlans && i < |s.vlans[vid].ports|
    ensures RecordsLive(Parted(s, vid, i))
  {
    var t, gone := Parted(s, vid, i), s.vlans[vid].ports[i];
    forall v, m | v in t.vlans && m in t.vlans[v].ports
      ensures m in s.vlans[v].ports && m.memberSai != gone.memberSai
    {
      PartedMember(s, vid, i, m);
      PartedOther(s, vid, i, v, m);
    }
  }

  lemma PartedRecorded(s: State, vid: U16, i: nat)
    requires Inv(s) && vid in s.vlans && i < |s.vlans[vid].ports|
    ensures LiveRecorded(Parted(s, vid, i))
  {
    var t := Parted(s, vid, i);
    forall o | o in t.hwMembers ensures Recorded(t, o) {
      assert Recorded(s, o);
      PartedMember(s, vid, i, Member(s.hwMembers[o].port, o));
    }
  }

  lemma PartedShape(s: State, vid: U16, i: nat)
    requires VlansOk(s) && SingleOk(s) && vid in s.vlans && i < |s.vlans[vid].ports|
    ensures VlansOk(Parted(s, vid, i)) && SingleOk(Parted(s, vid, i))
  {
    WithoutMembers(s.vlans[vid].ports, i);
  }

  lemma PartedInv(s: State, vid: U16, i: nat)
    requires Inv(s) && vid in s.vlans && i < |s.vlans[vid].ports|
    ensures Inv(Parted(s, vid, i))
  {
    PartedRecords(s, vid, i);
    PartedRecorded(s, vid, i);
    PartedShape(s, vid, i);
  }

  /** Steps that leave handles, members and their places alone. */
  ghost predicate SameMembers(s: State, t: State) {
    && t.hwVlans == s.hwVlans && t.hwMembers.Keys == s.hwMembers.Keys
    && (forall o :: o in s.hwMembers ==>
          t.hwMembers[o].vlanSai == s.hwMembers[o].vlanSai && t.hwMembers[o].port == s.hwMembers[o].port)
    && (forall v :: v in s.vlans ==>
          v in t.vlans && t.vlans[v].vlanSai == s.vlans[v].vlanSai && t.vlans[v].ports == s.vlans[v].ports)
    && (forall v :: v in t.vlans && v !in s.vlans ==>
          v == 0 && t.vlans[v].ports == [] && t.vlans[v].vlanSai == NULL_OID)
  }

  lemma SameMembersShape(s: State, t: State)
    requires VlansOk(s) && SingleOk(s) && SameMembers(s, t)
    ensures VlansOk(t) && SingleOk(t)
  {
  }

  lemma SameMembersRecords(s: State, t: State)
    requires VlansOk(s) && RecordsLive(s) && LiveRecorded(s) && SameMembers(s, t)
    ensures RecordsLive(t) && LiveRecorded(t)
  {
    forall o | o in t.hwMembers ensures Recorded(t, o) {
      assert Recorded(s, o);
    }
  }

  lemma SameMembersInv(s: State, t: State)
    requires Inv(s) && SameMembers(s, t)
    ensures Inv(t)
  {
    SameMembersShape(s, t);
    SameMembersRecords(s, t);
  }

  lemma DefaultInv(ports: PortMap, env: Env, s: State, lPort: U16, vid: U16, query: bool, set_: bool)
    requires Inv(s)
    ensures Inv(DefaultStep(ports, env, s, lPort, vid, query, set_).0)
  {
    SameMembersInv(s, DefaultStep(ports, env, s, lPort, vid, query, set_).0);
  }

  lemma TagKeepsInv(ports: PortMap, s: State, lPort: U16, query: bool, refused: set<Oid>)
    requires Inv(s)
    ensures Inv(TagStep(ports, s, lPort, query, refused).0)
  {
    SameMembersInv(s, TagStep(ports, s, lPort, query, refused).0);
  }

  // Whole runs.

  datatype Op =
    | Create(vid: U16, query: bool, created: Option<Oid>)
    | Delete(vid: U16, query: bool, removed: bool)
    | Add(env: Env, vid: U16, query: bool, lPorts: seq<U16>, members: seq<Option<Oid>>)
    | Remove(vid: U16, query: bool, lPorts: seq<U16>, gone: seq<bool>)
    | SetDefault(env: Env, lPort: U16, vid: U16, query: bool, set_: bool)
    | Tag(lPort: U16, query: bool, refused: set<Oid>)

  function Step(ports: PortMap, s: State, op: Op): State {
    match op
    case Create(vid, query, created) => CreateStep(s, vid, query, created).0
    case Delete(vid, query, removed) => DeleteStep(s, vid, query, removed).0
    case Add(env, vid, query, lPorts, members) => AddStep(ports, env, s, vid, query, lPorts, members).0
    case Remove(vid, query, lPorts, gone) => RemoveStep(ports, s, vid, query, lPorts, gone).0
    case SetDefault(env, lPort, vid, query, set_) => DefaultStep(ports, env, s, lPort, vid, query, set_).0
    case Tag(lPort, query, refused) => TagStep(ports, s, lPort, query, refused).0
  }

  /** Each member handle granted during the loop is not live at that moment. */
  ghost predicate FreshMembers(
      ports: PortMap, env: Env, s: State, vid: U16, lPorts: seq<U16>, created: seq<Option<Oid>>)
    requires vid in s.vlans
    decreases lPorts
  {
    lPorts == [] ||
    (var r := Reply(created, None);
     (r.Some? ==> r.value !in s.hwMembers) &&
     FreshMembers(ports, env, AddOne(ports, env, s, vid, lPorts[0], r).0, vid, lPorts[1..], Rest(created)))
  }

  /** What the hardware guarantees: new handles are not live or null, and a VLAN with members stays. */
  ghost predicate Possible(ports: PortMap, s: State, op: Op) {
    match op
    case Create(_, _, created) => created.Some? ==> created.value != NULL_OID && created.value !in s.hwVlans
    case Delete(vid, _, removed) => vid in s.vlans && removed ==> Vacant(s, s.vlans[vid].vlanSai)
    case Add(env, vid, _, lPorts, members) => vid in s.vlans ==> FreshMembers(ports, env, s, vid, lPorts, members)
    case _ => true
  }

  function Run(ports: PortMap, s: State, ops: seq<Op>): State
    decreases ops
  {
    if ops == [] then s else Run(ports, Step(ports, s, ops[0]), ops[1..])
  }

  ghost predicate PossibleRun(ports: PortMap, s: State, ops: seq<Op>)
    decreases ops
  {
    ops == [] || (Possible(ports, s, ops[0]) && PossibleRun(ports, Step(ports, s, ops[0]), ops[1..]))
  }

  lemma {:induction false} AddLoopInv(
      ports: PortMap, env: Env, s: State, vid: U16, lPorts: seq<U16>, created: seq<Option<Oid>>)
    requires Inv(s) && vid in s.vlans && FreshMembers(ports, env, s, vid, lPorts, created)
    ensures Inv(AddLoop(ports, env, s, vid, lPorts, created).0)
    decreases lPorts
  {
    if lPorts != [] {
      var l, r := lPorts[0], Reply(created, None);
      var (s1, more) := AddOne(ports, env, s, vid, l, r);
      if s1 != s {
        JoinedInv(s, vid, ports[l].pPort, env.bridge[Low16(ports[l].pPort)], r.value);
      }
      if more {
        AddLoopInv(ports, env, s1, vid, lPorts[1..], Rest(created));
      }
    }
  }

  lemma {:induction false} RemoveLoopInv(ports: PortMap, s: State, vid: U16, lPorts: seq<U16>, removed: seq<bool>)
    requires Inv(s) && vid in s.vlans
    ensures Inv(RemoveLoop(ports, s, vid, lPorts, removed))
    decreases lPorts
  {
    if lPorts != [] {
      var l := lPorts[0];
      var s1 := RemoveOne(ports, s, vid, l, Reply(removed, false));
      if s1 != s {
        PartedInv(s, vid, IndexOf(s.vlans[vid].ports, ports[l].pPort));
      }
      RemoveLoopInv(ports, s1, vid, lPorts[1..], Rest(removed));
    }
  }

  lemma StepInv(ports: PortMap, s: State, op: Op)
    requires Inv(s) && Possible(ports, s, op)
    ensures Inv(Step(ports, s, op))
  {
    match op
    case Create(vid, query, created) => CreateInv(s, vid, query, created);
    case Delete(vid, query, removed) => DeleteInv(s, vid, query, removed);
    case Add(env, vid, query, lPorts, members) =>
      if vid in s.vlans && query { AddLoopInv(ports, env, s, vid, lPorts, members); }
    case Remove(vid, query, lPorts, gone) =>
      if vid in s.vlans && query { RemoveLoopInv(ports, s, vid, lPorts, gone); }
    case SetDefault(env, lPort, vid, query, set_) => DefaultInv(ports, env, s, lPort, vid, query, set_);
    case Tag(lPort, query, refused) => TagKeepsInv(ports, s, lPort, query, refused);
  }

  /** After every run, whatever SAI refused on the way, the map and the hardware agree. */
  lemma {:induction false} RunInv(ports: PortMap, s: State, ops: seq<Op>)
    requires Inv(s) && PossibleRun(ports, s, ops)
    ensures Inv(Run(ports, s, ops))
    decreases ops
  {
    if ops != [] {
      StepInv(ports, s, ops[0]);
      RunInv(ports, Step(ports, s, ops[0]), ops[1..]);
    }
  }

  // Whether a port is listed twice.

  /** Every physical port the 16-bit API can name fits the 16-bit field it is stored in. */
  ghost predicate Narrow(ports: PortMap) {
    forall l: U16 :: l in ports ==> ports[l].pPort < 0x1_0000
  }

  lemma {:induction false} AddLoopDistinct(
      ports: PortMap, env: Env, s: State, vid: U16, lPorts: seq<U16>, created: seq<Option<Oid>>)
    requires Narrow(ports) && DistinctOk(s) && vid in s.vlans
    ensures DistinctOk(AddLoop(ports, env, s, vid, lPorts, created).0)
    decreases lPorts
  {
    if lPorts != [] {
      var (s1, more) := AddOne(ports, env, s, vid, lPorts[0], Reply(created, None));
      assert Distinct(s.vlans[vid].ports);
      assert DistinctOk(s1);
      if more {
        AddLoopDistinct(ports, env, s1, vid, lPorts[1..], Rest(created));
      }
    }
  }

  lemma {:induction false} RemoveLoopDistinct(ports: PortMap, s: State, vid: U16, lPorts: seq<U16>, removed: seq<bool>)
    requires DistinctOk(s) && vid in s.vlans
    ensures DistinctOk(RemoveLoop(ports, s, vid, lPorts, removed))
    decreases lPorts
  {
    if lPorts != [] {
      var s1 := RemoveOne(ports, s, vid, lPorts[0], Reply(removed, false));
      if s1 != s {
        WithoutMembers(s.vlans[vid].ports, IndexOf(s.vlans[vid].ports, ports[lPorts[0]].pPort));
        assert Distinct(s1.vlans[vid].ports);
      }
      RemoveLoopDistinct(ports, s1, vid, lPorts[1..], Rest(removed));
    }
  }

  /** With narrow port numbers every run lists a port at most once in each VLAN. */
  lemma {:induction false} RunDistinct(ports: PortMap, s: State, ops: seq<Op>)
    requires Narrow(ports) && DistinctOk(s)
    ensures DistinctOk(Run(ports, s, ops))
    decreases ops
  {
    if ops != [] {
      match ops[0] {
        case Add(env, vid, query, lPorts, members) =>
          if vid in s.vlans { AddLoopDistinct(ports, env, s, vid, lPorts, members); }
        case Remove(vid, query, lPorts, gone) =>
          if vid in s.vlans { RemoveLoopDistinct(ports, s, vid, lPorts, gone); }
        case _ =>
      }
      RunDistinct(ports, Step(ports, s, ops[0]), ops[1..]);
    }
  }
}
