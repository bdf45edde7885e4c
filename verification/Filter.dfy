/** The packet-filter table: first-match search over an array that deletion reorders (esalSaiHost.cc). */
module Filter {
  import opened Sai
  import opened Slots
  import opened PortMap
  import opened PortTable
  import opened Bits
  import MacText

  const MAX_FILTER_TABLE_SIZE := 32
  const MIN_PACKET := 16 // two MACs, the tag type, the tag

  /** The registration message, without raw-data matches. */
  datatype Rule = Rule(
    name: string,
    vendorPorts: seq<U32>,
    vlan: Option<U16>,
    vlanMask: Option<U16>,
    mac: Option<string>,
    macMask: Option<string>)

  datatype Entry = Entry(rule: Rule, mac: Mac, macMask: Mac, pendingDelete: bool, aclOid: Oid, aclV6Oid: Oid)

  type Table = seq<Entry>

  /** The 12-bit VLAN identifier of the tag control information (IEEE 802.1Q section 9.6), 0 without a tag. */
  function PacketVlan(pkt: seq<U8>): nat
    requires |pkt| >= MIN_PACKET
  {
    if pkt[12] == 0x81 && pkt[13] == 0x00 then And(pkt[14] as nat * 0x100 + pkt[15], 0xfff) else 0
  }

  predicate VlanMatches(r: Rule, vlan: nat) {
    r.vlan.Some? ==>
      var mask := if r.vlanMask.Some? then r.vlanMask.value else 0xfff;
      And(vlan, mask) == And(r.vlan.value, mask)
  }

  predicate MacMatches(e: Entry, dst: Mac) {
    e.rule.mac.Some? ==>
      forall k :: 0 <= k < 6 ==>
        var mask := if e.rule.macMask.Some? then e.macMask[k] else 0xff;
        And(e.mac[k], mask) == And(dst[k], mask)
  }

  /** What a filter asks of a packet: its port, its masked VLAN and its masked destination MAC. */
  predicate Fits(e: Entry, lPort: U32, vlan: nat, dst: Mac) {
    (e.rule.vendorPorts == [] || lPort in e.rule.vendorPorts) && VlanMatches(e.rule, vlan) && MacMatches(e, dst)
  }

  predicate Matches(e: Entry, lPort: U32, pkt: seq<U8>)
    requires |pkt| >= MIN_PACKET
  {
    Fits(e, lPort, PacketVlan(pkt), pkt[..6])
  }

  predicate Live(e: Entry, lPort: U32, pkt: seq<U8>)
    requires |pkt| >= MIN_PACKET
  {
    !e.pendingDelete && Matches(e, lPort, pkt)
  }

  /** A packet is accepted when some live filter matches it. */
  ghost predicate Accepts(t: Table, lPort: U32, pkt: seq<U8>) {
    |pkt| >= MIN_PACKET && exists i :: 0 <= i < |t| && Live(t[i], lPort, pkt)
  }

  function NameIndex(t: Table, name: string): (i: nat)
    ensures i <= |t|
    ensures i < |t| ==> t[i].rule.name == name
    ensures forall j :: 0 <= j < i ==> t[j].rule.name != name
  {
    FirstWhere(t, (e: Entry) => e.rule.name == name)
  }

  // The steps.

  predicate PortsKnown(ports: PortMap, handles: Handles, ls: seq<U32>) {
    forall l :: l in ls ==> l in ports && Low16(ports[l].pPort) in handles
  }

  /** The shadow slot with the new filter in it; bytes the filter does not give are left over. */
  function Written(slot: Entry, r: Rule, acl: Oid, aclV6: Oid): Entry {
    Entry(r,
      if r.mac.Some? then MacText.Parse(r.mac.value) else slot.mac,
      if r.macMask.Some? then MacText.Parse(r.macMask.value) else slot.macMask,
      false, acl, aclV6)
  }

  /** ACL creation may fail without being noticed, so the handles are whatever comes back. */
  function AddStep(
      t: Table, ports: PortMap, handles: Handles, slot: Entry, r: Rule, acl: Oid, aclV6: Oid): (Table, int) {
    if |t| >= MAX_FILTER_TABLE_SIZE || r.name == [] then (t, RC_FAIL)
    else if NameIndex(t, r.name) < |t| then (t, RC_OK)
    else if !PortsKnown(ports, handles, r.vendorPorts) then (t, RC_FAIL)
    else (t + [Written(slot, r, acl, aclV6)], RC_OK)
  }

  /** The moved entry's pending mark is cleared. */
  function Removed(t: Table, i: nat): Table
    requires i < |t|
  {
    var u := SwapOut(t, i);
    if i < |u| then u[i := u[i].(pendingDelete := false)] else u
  }

  function DeleteStep(t: Table, name: string, acl: bool, aclV6: bool): (Table, int) {
    var i := NameIndex(t, name);
    if i == |t| then (t, RC_OK)
    else if !acl || !aclV6 then (t[i := t[i].(pendingDelete := true)], RC_FAIL)
    else (Removed(t, i), RC_OK)
  }

  ghost predicate Inv(t: Table) {
    && |t| <= MAX_FILTER_TABLE_SIZE
    && (forall i, j :: 0 <= i < j < |t| ==> t[i].rule.name != t[j].rule.name)
    && (forall i :: 0 <= i < |t| ==> t[i].rule.name != [])
  }

  lemma AddInv(t: Table, ports: PortMap, handles: Handles, slot: Entry, r: Rule, acl: Oid, aclV6: Oid)
    requires Inv(t)
    ensures Inv(AddStep(t, ports, handles, slot, r, acl, aclV6).0)
  {
  }

  lemma DeleteInv(t: Table, name: string, acl: bool, aclV6: bool)
    requires Inv(t)
    ensures Inv(DeleteStep(t, name, acl, aclV6).0)
  {
    var u := DeleteStep(t, name, acl, aclV6).0;
    var i, last := NameIndex(t, name), |t| - 1;
    if |u| < |t| {
      assert forall k :: 0 <= k < |u| ==> u[k].rule == t[if k == i then last else k].rule;
    } else {
      assert forall k :: 0 <= k < |u| ==> u[k].rule == t[k].rule;
    }
  }

  /** What an answer of the add call means. OK: the name is in the table now. A failure changes nothing, and comes
      exactly of a full table, a missing name, or a port that is not known, in this order of precedence with the OK for
      a name that is there already. */
  lemma AddAnswer(
      t: Table, ports: PortMap, handles: Handles, slot: Entry, r: Rule, acl: Oid, aclV6: Oid)
    ensures var (u, rc) := AddStep(t, ports, handles, slot, r, acl, aclV6);
            && (rc == RC_OK <==>
                  && |t| < MAX_FILTER_TABLE_SIZE && r.name != []
                  && (NameIndex(t, r.name) < |t|
                      || forall l :: l in r.vendorPorts ==> l in ports && Low16(ports[l].pPort) in handles))
            && (rc == RC_OK ==> NameIndex(u, r.name) < |u| && t <= u && |u| <= |t| + 1)
            && (|u| > |t| ==>
                  var e := u[|t|];
                  && e.rule == r && !e.pendingDelete && Parsed(e) && e.aclOid == acl && e.aclV6Oid == aclV6
                  && (r.mac.None? ==> e.mac == slot.mac) && (r.macMask.None? ==> e.macMask == slot.macMask))
            && (rc != RC_OK ==> u == t && rc == RC_FAIL)
  {
    var u := AddStep(t, ports, handles, slot, r, acl, aclV6).0;
    if |u| > |t| {
      assert u[|t|].rule.name == r.name;
    }
  }

  /** What an answer of the delete call means. OK: the name is not in the table any more. A failure leaves every rule
      where it is and comes exactly of a refused removal of a filter that is there. */
  lemma DeleteAnswer(t: Table, name: string, acl: bool, aclV6: bool)
    requires Inv(t)
    ensures var (u, rc) := DeleteStep(t, name, acl, aclV6);
            && (rc == RC_OK <==> NameIndex(t, name) == |t| || (acl && aclV6))
            && (rc == RC_OK ==> NameIndex(u, name) == |u|)
            && (rc != RC_OK ==>
                  rc == RC_FAIL && |u| == |t| && forall i :: 0 <= i < |u| ==> u[i].rule == t[i].rule)
  {
    var i, last := NameIndex(t, name), |t| - 1;
    var u := DeleteStep(t, name, acl, aclV6).0;
    if |u| < |t| {
      assert forall k :: 0 <= k < |u| ==> u[k].rule == t[if k == i then last else k].rule;
    }
  }

  /** A new filter adds exactly its own packets. */
  lemma AddAccepts(
      t: Table, ports: PortMap, handles: Handles, slot: Entry, r: Rule, acl: Oid, aclV6: Oid, lPort: U32, pkt: seq<U8>)
    ensures var (u, rc) := AddStep(t, ports, handles, slot, r, acl, aclV6);
            Accepts(u, lPort, pkt) <==>
              Accepts(t, lPort, pkt)
              || (u != t && |pkt| >= MIN_PACKET && Matches(Written(slot, r, acl, aclV6), lPort, pkt))
  {
    var u := AddStep(t, ports, handles, slot, r, acl, aclV6).0;
    if u != t {
      assert u[|t|] == Written(slot, r, acl, aclV6);
      assert forall i :: 0 <= i < |t| ==> u[i] == t[i];
      if Accepts(u, lPort, pkt) {
        var i :| 0 <= i < |u| && Live(u[i], lPort, pkt);
        if i < |t| { assert Live(t[i], lPort, pkt); }
      }
      if Accepts(t, lPort, pkt) {
        var i :| 0 <= i < |t| && Live(t[i], lPort, pkt);
        assert Live(u[i], lPort, pkt);
      }
      if |pkt| >= MIN_PACKET && Matches(Written(slot, r, acl, aclV6), lPort, pkt) {
        assert Live(u[|t|], lPort, pkt);
      }
    }
  }

  /** The packet matches some live filter other than the i-th. */
  ghost predicate OthersAccept(t: Table, i: nat, lPort: U32, pkt: seq<U8>) {
    |pkt| >= MIN_PACKET && exists j :: 0 <= j < |t| && j != i && Live(t[j], lPort, pkt)
  }

  /** After a successful delete a packet is accepted exactly when a filter other than the named one matches,
      although the table has been reordered; with one exception. A last entry that an earlier, failed delete left
      pending is moved into the hole and comes back to life. */
  lemma DeleteAccepts(t: Table, name: string, lPort: U32, pkt: seq<U8>)
    requires NameIndex(t, name) < |t|
    ensures var i, last := NameIndex(t, name), |t| - 1;
            Accepts(DeleteStep(t, name, true, true).0, lPort, pkt) <==>
              || OthersAccept(t, i, lPort, pkt)
              || (i < last && t[last].pendingDelete && |pkt| >= MIN_PACKET && Matches(t[last], lPort, pkt))
  {
    var i, last := NameIndex(t, name), |t| - 1;
    var u := DeleteStep(t, name, true, true).0;
    assert |u| == last;
    assert forall k :: 0 <= k < last && k != i ==> u[k] == t[k];
    assert i < last ==> u[i] == t[last].(pendingDelete := false);
    if |pkt| >= MIN_PACKET {
      assert i < last ==> Matches(u[i], lPort, pkt) == Matches(t[last], lPort, pkt);
      if Accepts(u, lPort, pkt) {
        var k :| 0 <= k < |u| && Live(u[k], lPort, pkt);
        assert k != i ==> Live(t[k], lPort, pkt);
        assert k == i && !t[last].pendingDelete ==> Live(t[last], lPort, pkt);
      }
      if OthersAccept(t, i, lPort, pkt) {
        var j :| 0 <= j < |t| && j != i && Live(t[j], lPort, pkt);
        assert Live(u[if j == last then i else j], lPort, pkt);
      }
      if i < last && t[last].pendingDelete && Matches(t[last], lPort, pkt) {
        assert Live(u[i], lPort, pkt);
      }
    }
  }

  /** A delete that SAI refuses silences its own filter at once and no other. */
  lemma RefusedDeleteAccepts(t: Table, name: string, acl: bool, aclV6: bool, lPort: U32, pkt: seq<U8>)
    requires NameIndex(t, name) < |t| && !(acl && aclV6)
    ensures Accepts(DeleteStep(t, name, acl, aclV6).0, lPort, pkt) <==> OthersAccept(t, NameIndex(t, name), lPort, pkt)
  {
    var i := NameIndex(t, name);
    var u := DeleteStep(t, name, acl, aclV6).0;
    if |pkt| >= MIN_PACKET {
      if Accepts(u, lPort, pkt) {
        var k :| 0 <= k < |u| && Live(u[k], lPort, pkt);
        assert k != i && Live(t[k], lPort, pkt);
      }
      if OthersAccept(t, i, lPort, pkt) {
        var j :| 0 <= j < |t| && j != i && Live(t[j], lPort, pkt);
        assert Live(u[j], lPort, pkt);
      }
    }
  }

  // Whole runs.

  datatype Op =
    | Add(ports: PortMap, handles: Handles, slot: Entry, rule: Rule, acl: Oid, aclV6: Oid)
    | Delete(name: string, gone: bool, goneV6: bool)

  function Run(t: Table, ops: seq<Op>): Table
    decreases |ops|
  {
    if ops == [] then t
    else
      var last := ops[|ops| - 1];
      var u := Run(t, ops[..|ops| - 1]);
      match last
      case Add(ports, handles, slot, r, acl, aclV6) => AddStep(u, ports, handles, slot, r, acl, aclV6).0
      case Delete(name, gone, goneV6) => DeleteStep(u, name, gone, goneV6).0
  }

  ghost predicate GrantedRun(ops: seq<Op>) {
    forall i :: 0 <= i < |ops| ==> ops[i].Delete? ==> ops[i].gone && ops[i].goneV6
  }

  function Registered(m: map<string, Rule>, op: Op): map<string, Rule> {
    match op
    case Add(ports, handles, _, r, _, _) =>
      if |m| >= MAX_FILTER_TABLE_SIZE || r.name == [] || r.name in m then m
      else if !PortsKnown(ports, handles, r.vendorPorts) then m
      else m[r.name := r]
    case Delete(name, gone, goneV6) => if gone && goneV6 then m - {name} else m
  }

  function RegisteredRun(ops: seq<Op>): map<string, Rule>
    decreases |ops|
  {
    if ops == [] then map[] else Registered(RegisteredRun(ops[..|ops| - 1]), ops[|ops| - 1])
  }

  /** The VLAN identifier of a tagged packet: the low nibble of one byte and the whole of the next; 0 for any other
      tag type. */
  function TagVid(pkt: seq<U8>): nat
    requires |pkt| >= MIN_PACKET
  {
    if pkt[12..14] == [0x81, 0x00] then pkt[14] as nat % 16 * 0x100 + pkt[15] else 0
  }

  /** What the rule as registered asks of a packet: one of its ports; the VLAN's bits where the mask has ones; and the
      bits of the destination MAC, read from the rule's texts, where their masks have ones. */
  ghost predicate Wants(r: Rule, lPort: U32, pkt: seq<U8>)
    requires |pkt| >= MIN_PACKET
  {
    && (r.vendorPorts == [] || lPort in r.vendorPorts)
    && (r.vlan.Some? ==> AgreeOn(if r.vlanMask.Some? then r.vlanMask.value else 0xfff, TagVid(pkt), r.vlan.value))
    && (r.mac.Some? ==>
          forall k :: 0 <= k < 6 ==>
            AgreeOn(
              if r.macMask.Some? then MacText.Parse(r.macMask.value)[k] else 0xff,
              pkt[k], MacText.Parse(r.mac.value)[k]))
  }

  lemma PacketVlanIs(pkt: seq<U8>)
    requires |pkt| >= MIN_PACKET
    ensures PacketVlan(pkt) == TagVid(pkt)
  {
    var hi: nat, lo: nat := pkt[14], pkt[15];
    Mask12(hi * 0x100 + lo);
    assert hi == hi / 16 * 16 + hi % 16;
    ModIs(hi * 0x100 + lo, 0x1000, hi / 16, hi % 16 * 0x100 + lo);
    assert pkt[12..14] == [pkt[12], pkt[13]];
  }

  /** A tag is read back: any priority nibble, any 12-bit identifier. */
  lemma TagRead(pkt: seq<U8>, h: nat, vid: nat)
    requires |pkt| >= MIN_PACKET && h < 16 && vid < 0x1000
    requires pkt[12..16] == [0x81, 0x00, h * 16 + vid / 0x100, vid % 0x100]
    ensures PacketVlan(pkt) == vid
  {
    PacketVlanIs(pkt);
    assert pkt[12] == pkt[12..16][0] && pkt[13] == pkt[12..16][1];
    assert pkt[14] == pkt[12..16][2] && pkt[15] == pkt[12..16][3];
    ModIs(h * 16 + vid / 0x100, 16, h, vid / 0x100);
  }

  /** The masked comparisons are those the rule asks for. */
  lemma VlanAsked(r: Rule, pkt: seq<U8>)
    requires |pkt| >= MIN_PACKET && r.vlan.Some?
    ensures VlanMatches(r, PacketVlan(pkt)) <==>
              AgreeOn(if r.vlanMask.Some? then r.vlanMask.value else 0xfff, TagVid(pkt), r.vlan.value)
  {
    PacketVlanIs(pkt);
    SameUnderMask(if r.vlanMask.Some? then r.vlanMask.value else 0xfff, TagVid(pkt), r.vlan.value);
  }

  lemma MacAsked(e: Entry, dst: Mac)
    requires e.rule.mac.Some?
    ensures MacMatches(e, dst) <==>
              forall k :: 0 <= k < 6 ==> AgreeOn(if e.rule.macMask.Some? then e.macMask[k] else 0xff, dst[k], e.mac[k])
  {
    forall k | 0 <= k < 6
      ensures var mask := if e.rule.macMask.Some? then e.macMask[k] else 0xff;
              And(e.mac[k], mask) == And(dst[k], mask) <==> AgreeOn(mask, dst[k], e.mac[k])
    {
      SameUnderMask(if e.rule.macMask.Some? then e.macMask[k] else 0xff, dst[k], e.mac[k]);
    }
  }

  /** A parsed entry matches exactly the packets its rule wants. */
  lemma MatchesWanted(e: Entry, lPort: U32, pkt: seq<U8>)
    requires Parsed(e) && |pkt| >= MIN_PACKET
    ensures Matches(e, lPort, pkt) <==> Wants(e.rule, lPort, pkt)
  {
    if e.rule.vlan.Some? { VlanAsked(e.rule, pkt); }
    if e.rule.mac.Some? {
      MacAsked(e, pkt[..6]);
      assert forall k :: 0 <= k < 6 ==> pkt[..6][k] == pkt[k];
    }
  }

  /** The bytes are those of the rule's texts. */
  ghost predicate Parsed(e: Entry) {
    && (e.rule.mac.Some? ==> e.mac == MacText.Parse(e.rule.mac.value))
    && (e.rule.macMask.Some? ==> e.macMask == MacText.Parse(e.rule.macMask.value))
  }

  /** The entry is live and holds its rule, parsed. */
  ghost predicate Holds(e: Entry, m: map<string, Rule>) {
    && !e.pendingDelete && e.rule.name in m && m[e.rule.name] == e.rule
    && Parsed(e)
  }

  ghost predicate Refines(t: Table, m: map<string, Rule>) {
    && Inv(t) && |t| == |m|
    && (forall i :: 0 <= i < |t| ==> Holds(t[i], m))
    && (forall n :: n in m ==> NameIndex(t, n) < |t|)
  }

  lemma AppendRefines(t: Table, m: map<string, Rule>, e: Entry)
    requires Refines(t, m) && Inv(t + [e]) && e.rule.name !in m
    requires Holds(e, m[e.rule.name := e.rule])
    ensures Refines(t + [e], m[e.rule.name := e.rule])
  {
    var u, m' := t + [e], m[e.rule.name := e.rule];
    forall n | n in m' ensures NameIndex(u, n) < |u| {
      assert u[if n in m then NameIndex(t, n) else |t|].rule.name == n;
    }
    forall i | 0 <= i < |u| ensures Holds(u[i], m') {
      assert i < |t| ==> u[i] == t[i] && Holds(t[i], m);
    }
  }

  lemma AddRefines(t: Table, m: map<string, Rule>, op: Op)
    requires Refines(t, m) && op.Add?
    ensures Refines(AddStep(t, op.ports, op.handles, op.slot, op.rule, op.acl, op.aclV6).0, Registered(m, op))
  {
    AddInv(t, op.ports, op.handles, op.slot, op.rule, op.acl, op.aclV6);
    var n := op.rule.name;
    if NameIndex(t, n) < |t| {
      assert Holds(t[NameIndex(t, n)], m);
    } else if |t| < MAX_FILTER_TABLE_SIZE && n != [] && PortsKnown(op.ports, op.handles, op.rule.vendorPorts) {
      AppendRefines(t, m, Written(op.slot, op.rule, op.acl, op.aclV6));
    }
  }

  lemma SmallerMap(m: map<string, Rule>, name: string)
    requires name in m
    ensures |m - {name}| == |m| - 1
  {
    assert (m - {name}).Keys == m.Keys - {name};
  }

  lemma RemovedHolds(t: Table, m: map<string, Rule>, i: nat, k: nat)
    requires i < |t| && k < |t| - 1 && Inv(t)
    requires forall j :: 0 <= j < |t| ==> Holds(t[j], m)
    ensures Holds(Removed(t, i)[k], m - {t[i].rule.name})
  {
    var j := if k == i then |t| - 1 else k;
    assert Removed(t, i)[k] == t[j];
    assert t[j].rule.name != t[i].rule.name;
  }

  lemma RemovedFinds(t: Table, i: nat, n: string)
    requires i < |t| && NameIndex(t, n) < |t| && t[i].rule.name != n
    ensures NameIndex(Removed(t, i), n) < |t| - 1
  {
    var u, k := Removed(t, i), NameIndex(t, n);
    assert u[if k == |t| - 1 then i else k].rule.name == n;
  }

  lemma RemovedRefines(t: Table, m: map<string, Rule>, i: nat)
    requires Refines(t, m) && i < |t| && Inv(Removed(t, i))
    ensures Refines(Removed(t, i), m - {t[i].rule.name})
  {
    var u, name := Removed(t, i), t[i].rule.name;
    assert Holds(t[i], m);
    SmallerMap(m, name);
    forall k | 0 <= k < |u| ensures Holds(u[k], m - {name}) {
      RemovedHolds(t, m, i, k);
    }
    forall n | n in m && n != name ensures NameIndex(u, n) < |u| {
      RemovedFinds(t, i, n);
    }
  }

  lemma DeleteRefines(t: Table, m: map<string, Rule>, name: string)
    requires Refines(t, m)
    ensures Refines(DeleteStep(t, name, true, true).0, m - {name})
  {
    var i := NameIndex(t, name);
    DeleteInv(t, name, true, true);
    if i < |t| {
      RemovedRefines(t, m, i);
    } else {
      assert m - {name} == m;
    }
  }

  lemma {:induction false} RunRefines(ops: seq<Op>)
    requires GrantedRun(ops)
    ensures Refines(Run([], ops), RegisteredRun(ops))
    decreases |ops|
  {
    if ops != [] {
      var before, last := ops[..|ops| - 1], ops[|ops| - 1];
      RunRefines(before);
      match last
      case Add(_, _, _, _, _, _) => AddRefines(Run([], before), RegisteredRun(before), last);
      case Delete(name, _, _) => DeleteRefines(Run([], before), RegisteredRun(before), name);
    }
  }

  lemma LiveIsWanted(e: Entry, m: map<string, Rule>, lPort: U32, pkt: seq<U8>)
    requires Holds(e, m) && |pkt| >= MIN_PACKET
    ensures Live(e, lPort, pkt) <==> Wants(m[e.rule.name], lPort, pkt)
  {
    MatchesWanted(e, lPort, pkt);
  }

  ghost predicate Wanted(m: map<string, Rule>, lPort: U32, pkt: seq<U8>) {
    |pkt| >= MIN_PACKET && exists n :: n in m && Wants(m[n], lPort, pkt)
  }

  lemma WantedAccepts(t: Table, m: map<string, Rule>, lPort: U32, pkt: seq<U8>)
    requires Refines(t, m)
    ensures Accepts(t, lPort, pkt) <==> Wanted(m, lPort, pkt)
  {
    if Accepts(t, lPort, pkt) {
      var i :| 0 <= i < |t| && Live(t[i], lPort, pkt);
      LiveIsWanted(t[i], m, lPort, pkt);
    }
    if Wanted(m, lPort, pkt) {
      var n :| n in m && Wants(m[n], lPort, pkt);
      var i := NameIndex(t, n);
      LiveIsWanted(t[i], m, lPort, pkt);
      assert Live(t[i], lPort, pkt);
    }
  }

  /** After any run of registrations and granted removals a packet is accepted exactly when one of the rules still
      registered wants it, however removal has reordered the array and whatever bytes earlier rules left behind. */
  lemma RunAccepts(ops: seq<Op>, lPort: U32, pkt: seq<U8>)
    requires GrantedRun(ops)
    ensures Accepts(Run([], ops), lPort, pkt) <==> Wanted(RegisteredRun(ops), lPort, pkt)
  {
    RunRefines(ops);
    WantedAccepts(Run([], ops), RegisteredRun(ops), lPort, pkt);
  }

  // Runs in which removals may be refused: the order of the table matters, its bytes do not.

  /** A registered rule, and whether a removal of it has been refused. */
  datatype Listed = Listed(rule: Rule, pending: bool)

  function Place(ls: seq<Listed>, name: string): (i: nat)
    ensures i <= |ls|
    ensures i < |ls| ==> ls[i].rule.name == name
    ensures forall j :: 0 <= j < i ==> ls[j].rule.name != name
  {
    FirstWhere(ls, (l: Listed) => l.rule.name == name)
  }

  /** A refused removal marks the rule; a granted one puts the last rule in its place, unmarked. */
  function Listing(ls: seq<Listed>, op: Op): seq<Listed> {
    match op
    case Add(ports, handles, _, r, _, _) =>
      if |ls| >= MAX_FILTER_TABLE_SIZE || r.name == [] || Place(ls, r.name) < |ls| then ls
      else if !PortsKnown(ports, handles, r.vendorPorts) then ls
      else ls + [Listed(r, false)]
    case Delete(name, gone, goneV6) =>
      var i, n := Place(ls, name), |ls| - 1;
      if i == |ls| then ls
      else if !gone || !goneV6 then ls[i := Listed(ls[i].rule, true)]
      else if i == n then ls[..n]
      else ls[i := Listed(ls[n].rule, false)][..n]
  }

  function ListingRun(ops: seq<Op>): seq<Listed>
    decreases |ops|
  {
    if ops == [] then [] else Listing(ListingRun(ops[..|ops| - 1]), ops[|ops| - 1])
  }

  /** The table holds the listed rules, parsed, in this order. */
  ghost predicate Lists(t: Table, ls: seq<Listed>) {
    && |t| == |ls|
    && forall i :: 0 <= i < |t| ==>
         t[i].rule == ls[i].rule && t[i].pendingDelete == ls[i].pending && Parsed(t[i])
  }

  lemma SamePlace(t: Table, ls: seq<Listed>, name: string)
    requires Lists(t, ls)
    ensures NameIndex(t, name) == Place(ls, name)
  {
    var i, k := NameIndex(t, name), Place(ls, name);
    assert i < |t| ==> ls[i].rule.name == name;
    assert k < |t| ==> t[k].rule.name == name;
  }

  lemma AddLists(t: Table, ls: seq<Listed>, op: Op)
    requires Lists(t, ls) && op.Add?
    ensures Lists(AddStep(t, op.ports, op.handles, op.slot, op.rule, op.acl, op.aclV6).0, Listing(ls, op))
  {
    SamePlace(t, ls, op.rule.name);
    assert Parsed(Written(op.slot, op.rule, op.acl, op.aclV6));
  }

  lemma DeleteLists(t: Table, ls: seq<Listed>, op: Op)
    requires Lists(t, ls) && op.Delete?
    ensures Lists(DeleteStep(t, op.name, op.gone, op.goneV6).0, Listing(ls, op))
  {
    SamePlace(t, ls, op.name);
    var i, u, v := NameIndex(t, op.name), DeleteStep(t, op.name, op.gone, op.goneV6).0, Listing(ls, op);
    if |u| < |t| {
      forall k | 0 <= k < |u| ensures u[k].rule == v[k].rule && u[k].pendingDelete == v[k].pending && Parsed(u[k]) {
        assert Parsed(t[if k == i then |u| else k]);
      }
    }
  }

  lemma {:induction false} RunLists(ops: seq<Op>)
    ensures Lists(Run([], ops), ListingRun(ops))
    decreases |ops|
  {
    if ops != [] {
      var before, last := ops[..|ops| - 1], ops[|ops| - 1];
      RunLists(before);
      if last.Add? {
        AddLists(Run([], before), ListingRun(before), last);
      } else {
        DeleteLists(Run([], before), ListingRun(before), last);
      }
    }
  }

  ghost predicate ListWants(ls: seq<Listed>, lPort: U32, pkt: seq<U8>) {
    |pkt| >= MIN_PACKET && exists i :: 0 <= i < |ls| && !ls[i].pending && Wants(ls[i].rule, lPort, pkt)
  }

  lemma ListedAccepts(t: Table, ls: seq<Listed>, lPort: U32, pkt: seq<U8>)
    requires Lists(t, ls)
    ensures Accepts(t, lPort, pkt) <==> ListWants(ls, lPort, pkt)
  {
    if |pkt| >= MIN_PACKET {
      forall i | 0 <= i < |t| ensures Live(t[i], lPort, pkt) <==> !ls[i].pending && Wants(ls[i].rule, lPort, pkt) {
        LiveIsListed(t[i], ls[i], lPort, pkt);
      }
    }
  }

  lemma LiveIsListed(e: Entry, l: Listed, lPort: U32, pkt: seq<U8>)
    requires |pkt| >= MIN_PACKET && e.rule == l.rule && e.pendingDelete == l.pending && Parsed(e)
    ensures Live(e, lPort, pkt) <==> !l.pending && Wants(l.rule, lPort, pkt)
  {
    MatchesWanted(e, lPort, pkt);
  }

  /** After every run, with any removal refused, a packet is accepted exactly when a listed rule that is not pending
      wants it. */
  lemma RunAcceptsListed(ops: seq<Op>, lPort: U32, pkt: seq<U8>)
    ensures Accepts(Run([], ops), lPort, pkt) <==> ListWants(ListingRun(ops), lPort, pkt)
  {
    RunLists(ops);
    ListedAccepts(Run([], ops), ListingRun(ops), lPort, pkt);
  }

  // A single filter on each of the three things it can ask for.

  /** The table with this one rule registered. */
  function Lone(slot: Entry, r: Rule): Table
  {
    Run([], [Add(map[], map[], slot, r, 1, 2)])
  }

  const ANY := Rule("lone", [], None, None, None, None)

  lemma LoneAccepts(slot: Entry, r: Rule, lPort: U32, pkt: seq<U8>)
    requires r.name != [] && r.vendorPorts == [] && |pkt| >= MIN_PACKET
    ensures Accepts(Lone(slot, r), lPort, pkt) <==> Wants(r, lPort, pkt)
  {
    var op := Add(map[], map[], slot, r, 1, 2);
    NextListing([], op);
    assert [] + [op] == [op];
    assert ListingRun([op]) == [Listed(r, false)];
    RunAcceptsListed([op], lPort, pkt);
    assert [Listed(r, false)][0] == Listed(r, false);
  }

  lemma VlanAlone(vlan: U16, lPort: U32, pkt: seq<U8>)
    requires |pkt| >= MIN_PACKET
    ensures Wants(ANY.(vlan := Some(vlan)), lPort, pkt) <==> AgreeOn(0xfff, TagVid(pkt), vlan)
  {
  }

  /** A rule on a VLAN alone accepts a packet tagged vid exactly when it names vid. */
  lemma LoneVlanAccepts(slot: Entry, vlan: U16, lPort: U32, pkt: seq<U8>, h: nat, vid: nat)
    requires vlan < 0x1000 && |pkt| >= MIN_PACKET && h < 16 && vid < 0x1000
    requires pkt[12..16] == [0x81, 0x00, h * 16 + vid / 0x100, vid % 0x100]
    ensures Accepts(Lone(slot, ANY.(vlan := Some(vlan))), lPort, pkt) <==> vlan == vid
  {
    LoneAccepts(slot, ANY.(vlan := Some(vlan)), lPort, pkt);
    VlanAlone(vlan, lPort, pkt);
    TagRead(pkt, h, vid);
    PacketVlanIs(pkt);
    Powers();
    AgreeOnOnes(0xfff, vid, vlan, 12);
  }

  lemma MacAlone(text: string, lPort: U32, pkt: seq<U8>)
    requires |pkt| >= MIN_PACKET
    ensures Wants(ANY.(mac := Some(text)), lPort, pkt) <==>
              forall k :: 0 <= k < 6 ==> AgreeOn(0xff, pkt[k], MacText.Parse(text)[k])
  {
  }

  lemma SameMac(a: seq<U8>, b: Mac)
    requires |a| >= 6
    ensures a[..6] == b <==> forall k :: 0 <= k < 6 ==> AgreeOn(0xff, a[k], b[k])
  {
    forall k | 0 <= k < 6 ensures AgreeOn(0xff, a[k], b[k]) <==> a[k] == b[k] {
      Powers();
      AgreeOnOnes(0xff, a[k], b[k], 8);
    }
    assert a[..6] == b <==> forall k :: 0 <= k < 6 ==> a[k] == b[k];
  }

  /** A rule on a MAC alone, written out in any letter case, accepts exactly the packets sent to it. */
  lemma LoneMacAccepts(slot: Entry, mac: Mac, upper: seq<bool>, lPort: U32, pkt: seq<U8>)
    requires |upper| == 12 && |pkt| >= MIN_PACKET
    ensures Accepts(Lone(slot, ANY.(mac := Some(MacText.Print(mac, upper)))), lPort, pkt) <==> pkt[..6] == mac
  {
    var text := MacText.Print(mac, upper);
    LoneAccepts(slot, ANY.(mac := Some(text)), lPort, pkt);
    MacAlone(text, lPort, pkt);
    MacText.ParsePrint(mac, upper);
    SameMac(pkt, mac);
  }

  // A filter that comes back to life.

  /** Two filters are registered, the removal of the second is refused, and then the first is removed. */
  function Revival(ports: PortMap, handles: Handles, slot: Entry, a: Rule, b: Rule): seq<Op> {
    [Add(ports, handles, slot, a, 1, 2), Add(ports, handles, slot, b, 3, 4),
     Delete(b.name, false, true), Delete(a.name, true, true)]
  }

  lemma NextListing(ops: seq<Op>, op: Op)
    ensures ListingRun(ops + [op]) == Listing(ListingRun(ops), op)
  {
    assert (ops + [op])[..|ops + [op]| - 1] == ops;
  }

  lemma RevivalListing(ports: PortMap, handles: Handles, slot: Entry, a: Rule, b: Rule)
    requires a.name != [] && b.name != [] && a.name != b.name
    requires PortsKnown(ports, handles, a.vendorPorts) && PortsKnown(ports, handles, b.vendorPorts)
    ensures var ops := Revival(ports, handles, slot, a, b);
            ListingRun(ops[..3]) == [Listed(a, false), Listed(b, true)] && ListingRun(ops) == [Listed(b, false)]
  {
    var ops := Revival(ports, handles, slot, a, b);
    NextListing([], ops[0]);
    NextListing([ops[0]], ops[1]);
    NextListing([ops[0]] + [ops[1]], ops[2]);
    NextListing([ops[0]] + [ops[1]] + [ops[2]], ops[3]);
    assert ops[..3] == [ops[0]] + [ops[1]] + [ops[2]];
    assert ops == [ops[0]] + [ops[1]] + [ops[2]] + [ops[3]];
    var x, y := Listed(a, false), Listed(b, false);
    assert Place([], a.name) == 0 && Place([x], b.name) == 1 && Place([x, y], b.name) == 1;
    assert Place([x, Listed(b, true)], a.name) == 0;
  }

  /** Before the last step the table accepts exactly what the first filter wants; after it, exactly what the second
      wants, whose removal was asked for and refused. */
  lemma RevivalAccepts(
      ports: PortMap, handles: Handles, slot: Entry, a: Rule, b: Rule, lPort: U32, pkt: seq<U8>)
    requires a.name != [] && b.name != [] && a.name != b.name
    requires PortsKnown(ports, handles, a.vendorPorts) && PortsKnown(ports, handles, b.vendorPorts)
    requires |pkt| >= MIN_PACKET
    ensures var ops := Revival(ports, handles, slot, a, b);
            && (Accepts(Run([], ops[..3]), lPort, pkt) <==> Wants(a, lPort, pkt))
            && (Accepts(Run([], ops), lPort, pkt) <==> Wants(b, lPort, pkt))
  {
    var ops := Revival(ports, handles, slot, a, b);
    RevivalListing(ports, handles, slot, a, b);
    RunAcceptsListed(ops[..3], lPort, pkt);
    RunAcceptsListed(ops, lPort, pkt);
    var ls, ls' := [Listed(a, false), Listed(b, true)], [Listed(b, false)];
    assert ls[0] == Listed(a, false) && ls'[0] == Listed(b, false);
  }

  class FilterTable {
    const table: array<Entry>
    var size: nat

    ghost predicate Valid()
      reads this, table
    {
      table.Length == MAX_FILTER_TABLE_SIZE && size <= MAX_FILTER_TABLE_SIZE
    }

    ghost function Entries(): (t: Table)
      requires Valid()
      reads this, table
      ensures |t| == size
    {
      table[..size]
    }

    constructor ()
      ensures Valid() && Entries() == [] && fresh(table)
    {
      table := new Entry[MAX_FILTER_TABLE_SIZE](_ => BLANK_ENTRY);
      size := 0;
    }

    method FindName(name: string) returns (i: nat)
      requires Valid()
      ensures i == NameIndex(Entries(), name)
    {
      i := 0;
      while i < size
        invariant 0 <= i <= size
        invariant forall j :: 0 <= j < i ==> Entries()[j].rule.name != name
      {
        if table[i].rule.name == name {
          assert Entries()[i] == table[i];
          return;
        }
        i := i + 1;
      }
    }

    /** The masked comparison of the destination MAC, byte by byte. */
    method CheckMac(e: Entry, dst: Mac) returns (matching: bool)
      requires e.rule.mac.Some?
      ensures matching == MacMatches(e, dst)
    {
      for k := 0 to 6
        invariant forall j :: 0 <= j < k ==>
          var mask := if e.rule.macMask.Some? then e.macMask[j] else 0xff;
          And(e.mac[j], mask) == And(dst[j], mask)
      {
        var mask: U8 := if e.rule.macMask.Some? then e.macMask[k] else 0xff;
        if And(e.mac[k], mask) != And(dst[k], mask) {
          return false;
        }
      }
      return true;
    }

    method CheckPort(vendorPorts: seq<U32>, lPort: U32) returns (matching: bool)
      ensures matching == (lPort in vendorPorts)
    {
      for k := 0 to |vendorPorts|
        invariant lPort !in vendorPorts[..k]
      {
        if vendorPorts[k] == lPort {
          return true;
        }
      }
      return false;
    }

    method CheckVlan(r: Rule, vlan: nat) returns (matching: bool)
      ensures matching == VlanMatches(r, vlan)
    {
      if r.vlan.Some? {
        var mask := if r.vlanMask.Some? then r.vlanMask.value else 0xfff;
        return And(vlan, mask) == And(r.vlan.value, mask);
      }
      return true;
    }

    method CheckEntry(e: Entry, lPort: U32, vlan: nat, dst: Mac) returns (matching: bool)
      ensures matching == (!e.pendingDelete && Fits(e, lPort, vlan, dst))
    {
      if e.pendingDelete { return false; }
      if e.rule.vendorPorts != [] {
        matching := CheckPort(e.rule.vendorPorts, lPort);
        if !matching { return; }
      }
      matching := CheckVlan(e.rule, vlan);
      if e.rule.mac.Some? && matching {
        matching := CheckMac(e, dst);
      }
    }

    /** searchFilterTable: the least index of a live filter that matches, or none; short packets match nothing. */
    method SearchFilterTable(lPort: U32, pkt: seq<U8>) returns (found: Option<nat>)
      requires Valid()
      ensures found.Some? <==> Accepts(Entries(), lPort, pkt)
      ensures found.Some? ==>
                && found.value < size && |pkt| >= MIN_PACKET && Live(Entries()[found.value], lPort, pkt)
                && forall j :: 0 <= j < found.value ==> !Live(Entries()[j], lPort, pkt)
    {
      if |pkt| < MIN_PACKET { return None; }
      var vlan := PacketVlan(pkt);
      var i := 0;
      while i < size
        invariant 0 <= i <= size
        invariant forall j :: 0 <= j < i ==> !Live(Entries()[j], lPort, pkt)
      {
        var matching := CheckEntry(table[i], lPort, vlan, pkt[..6]);
        assert Entries()[i] == table[i];
        if matching { return Some(i); }
        i := i + 1;
      }
      return None;
    }

    /** Every listed port must have a physical port and a handle. */
    method FindPorts(ports: PortMap, handles: Handles, ls: seq<U32>) returns (known: bool)
      ensures known == PortsKnown(ports, handles, ls)
    {
      for j := 0 to |ls|
        invariant PortsKnown(ports, handles, ls[..j])
      {
        if ls[j] !in ports || Low16(ports[ls[j]].pPort) !in handles {
          assert ls[j] in ls;
          return false;
        }
        assert ls[..j + 1] == ls[..j] + [ls[j]];
      }
      assert ls[..|ls|] == ls;
      return true;
    }

    method VendorAddPacketFilter(ports: PortMap, handles: Handles, r: Rule, acl: Oid, aclV6: Oid) returns (rc: int)
      requires Valid()
      modifies this, table
      ensures Valid()
      ensures (Entries(), rc)
           == AddStep(
                old(Entries()), ports, handles, if old(size) < table.Length then old(table[size]) else BLANK_ENTRY,
                r, acl, aclV6)
    {
      if size >= MAX_FILTER_TABLE_SIZE { return RC_FAIL; }
      if r.name == [] { return RC_FAIL; }
      var k := FindName(r.name);
      if k < size { return RC_OK; }
      FillSlot(r);
      ghost var t := Entries();
      var known := FindPorts(ports, handles, r.vendorPorts);
      if !known { return RC_FAIL; }
      table[size] := table[size].(aclOid := acl, aclV6Oid := aclV6);
      size := size + 1;
      assert Entries() == t + [table[size - 1]];
      return RC_OK;
    }

    /** The shadow slot takes the rule and whichever MAC texts it gives. */
    method FillSlot(r: Rule)
      requires Valid() && size < MAX_FILTER_TABLE_SIZE
      modifies table
      ensures Entries() == old(Entries())
      ensures var e := old(table[size]); table[size] == Written(e, r, e.aclOid, e.aclV6Oid)
    {
      table[size] := table[size].(pendingDelete := false, rule := r);
      if r.mac.Some? {
        table[size] := table[size].(mac := MacText.Parse(r.mac.value));
      }
      if r.macMask.Some? {
        table[size] := table[size].(macMask := MacText.Parse(r.macMask.value));
      }
      assert Entries() == old(Entries());
    }

    method VendorDeletePacketFilter(name: string, acl: bool, aclV6: bool) returns (rc: int)
      requires Valid()
      modifies this, table
      ensures Valid()
      ensures (Entries(), rc) == DeleteStep(old(Entries()), name, acl, aclV6)
    {
      var i := FindName(name);
      if i == size { return RC_OK; }
      table[i] := table[i].(pendingDelete := true);
      assert Entries() == old(Entries())[i := old(Entries())[i].(pendingDelete := true)];
      if !acl { return RC_FAIL; }
      if !aclV6 { return RC_FAIL; }
      table[i] := table[size - 1];
      table[i] := table[i].(pendingDelete := false);
      size := size - 1;
      assert Entries() == Removed(old(Entries()), i);
      return RC_OK;
    }
  }

  const BLANK_ENTRY := Entry(Rule([], [], None, None, None, None), [0, 0, 0, 0, 0, 0], [0, 0, 0, 0, 0, 0], false, 0, 0)
}
