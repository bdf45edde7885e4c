/** The VLAN entry points as the driver runs them: maps and vectors updated in place, one loop per batch
    (esalSaiVlan.cc). */
module VlanDriver {
  import opened Sai
  import opened Ordered
  import opened PortMap
  import opened Vlan
  import opened VlanRestore

  /** The replies left after i calls. */
  function Left<T>(rs: seq<T>, i: nat): seq<T> {
    if i <= |rs| then rs[i..] else []
  }

  function Within(vlans: map<U16, VlanEntry>, ks: seq<nat>): map<U16, VlanEntry> {
    map v | v in vlans && v in ks :: vlans[v]
  }

  function PortMembers(ports: seq<Member>, p: nat): set<Oid> {
    set i | 0 <= i < |ports| && ports[i].portId == p :: ports[i].memberSai
  }

  lemma MembersOnNext(vlans: map<U16, VlanEntry>, ks: seq<nat>, v: U16, p: nat)
    requires v in vlans
    ensures MembersOn(Within(vlans, ks + [v]), p) == MembersOn(Within(vlans, ks), p) + PortMembers(vlans[v].ports, p)
  {
    var a, b := Within(vlans, ks + [v]), Within(vlans, ks);
    forall o ensures o in MembersOn(a, p) <==> o in MembersOn(b, p) + PortMembers(vlans[v].ports, p) {
      if o in MembersOn(a, p) {
        var w, i :| w in a && 0 <= i < |a[w].ports| && a[w].ports[i].portId == p && a[w].ports[i].memberSai == o;
        if w in b { assert b[w] == a[w]; }
      }
      if o in MembersOn(b, p) {
        var w, i :| w in b && 0 <= i < |b[w].ports| && b[w].ports[i].portId == p && b[w].ports[i].memberSai == o;
        assert w in a && a[w] == b[w];
      }
      if o in PortMembers(vlans[v].ports, p) {
        assert v in a && a[v] == vlans[v];
      }
    }
  }

  lemma UntagTwice(hw: map<Oid, HwMember>, a: set<Oid>, b: set<Oid>)
    ensures Untag(Untag(hw, a), b) == Untag(hw, a + b)
  {
  }

  /** The members after the VLANs in ks have been visited. */
  function Visited(
      hw: map<Oid, HwMember>, vlans: map<U16, VlanEntry>, ks: seq<nat>, p: nat, refused: set<Oid>): map<Oid, HwMember> {
    Untag(hw, MembersOn(Within(vlans, ks), p) - refused)
  }

  lemma VisitedNone(hw: map<Oid, HwMember>, vlans: map<U16, VlanEntry>, p: nat, refused: set<Oid>)
    ensures Visited(hw, vlans, [], p, refused) == hw
  {
  }

  lemma VisitedNext(hw: map<Oid, HwMember>, vlans: map<U16, VlanEntry>, ks: seq<nat>, v: U16, p: nat, refused: set<Oid>)
    requires v in vlans
    ensures Untag(Visited(hw, vlans, ks, p, refused), PortMembers(vlans[v].ports, p) - refused)
         == Visited(hw, vlans, ks + [v], p, refused)
  {
    var a, b := MembersOn(Within(vlans, ks), p), PortMembers(vlans[v].ports, p);
    MembersOnNext(vlans, ks, v, p);
    UntagTwice(hw, a - refused, b - refused);
    assert (a - refused) + (b - refused) == (a + b) - refused;
  }

  lemma VisitedAll(hw: map<Oid, HwMember>, vlans: map<U16, VlanEntry>, p: nat, refused: set<Oid>)
    ensures Visited(hw, vlans, Sorted(vlans.Keys), p, refused) == Untag(hw, MembersOn(vlans, p) - refused)
  {
    assert Within(vlans, Sorted(vlans.Keys)) == vlans;
  }

  class VlanDriver {
    const ports: PortMap
    var vlans: map<U16, VlanEntry>
    var tagPorts: seq<U16>
    ghost var hwVlans: map<Oid, U16>
    ghost var hwMembers: map<Oid, HwMember>
    ghost var pvid: map<Oid, U16>

    ghost function Now(): State
      reads this
    {
      State(vlans, tagPorts, hwVlans, hwMembers, pvid)
    }

    constructor (ports: PortMap)
      ensures Now() == EMPTY && this.ports == ports
    {
      this.ports := ports;
      vlans, tagPorts, hwVlans, hwMembers, pvid := map[], [], map[], map[], map[];
    }

    method VendorCreateVlan(vid: U16, query: bool, created: Option<Oid>) returns (rc: int)
      modifies this
      ensures (Now(), rc) == CreateStep(old(Now()), vid, query, created)
    {
      if vid in vlans { return RC_OK; }
      if !query || created.None? { return RC_FAIL; }
      hwVlans := hwVlans[created.value := vid];
      vlans := vlans[vid := VlanEntry(created.value, [], NO_PORT)];
      return RC_OK;
    }

    method VendorDeleteVlan(vid: U16, query: bool, removed: bool) returns (rc: int)
      modifies this
      ensures (Now(), rc) == DeleteStep(old(Now()), vid, query, removed)
    {
      if vid !in vlans { return RC_OK; }
      if !query || !removed { return RC_FAIL; }
      hwVlans := hwVlans - {vlans[vid].vlanSai};
      vlans := vlans - {vid};
      return RC_OK;
    }

    method FindMember(members: seq<Member>, p: nat) returns (k: nat)
      ensures k == IndexOf(members, p)
    {
      k := 0;
      while k < |members| && members[k].portId != p
        invariant k <= |members|
        invariant forall j :: 0 <= j < k ==> members[j].portId != p
      {
        k := k + 1;
      }
    }

    method IsTagPort(p: nat) returns (marked: bool)
      ensures marked == (p in tagPorts)
    {
      for k := 0 to |tagPorts|
        invariant p !in tagPorts[..k]
      {
        if tagPorts[k] == p { return true; }
      }
      return false;
    }

    method VendorAddPortsToVlan(
        env: Env, vid: U16, query: bool, lPorts: seq<U16>, created: seq<Option<Oid>>) returns (rc: int)
      modifies this
      ensures (Now(), rc) == AddStep(ports, env, old(Now()), vid, query, lPorts, created)
    {
      if vid !in vlans { return RC_OK; }
      if !query { return RC_FAIL; }
      for i := 0 to |lPorts|
        invariant vid in vlans
        invariant AddLoop(ports, env, old(Now()), vid, lPorts, created)
               == AddLoop(ports, env, Now(), vid, lPorts[i..], Left(created, i))
      {
        assert lPorts[i..][1..] == lPorts[i + 1..];
        assert Rest(Left(created, i)) == Left(created, i + 1);
        var l := lPorts[i];
        if l !in ports { continue; }
        var p := ports[l].pPort;
        var k := FindMember(vlans[vid].ports, p);
        if k < |vlans[vid].ports| { continue; }
        if Low16(p) !in env.bridge { return RC_FAIL; }
        var mustAddTag := IsTagPort(p);
        var reply := if i < |created| then created[i] else None;
        if reply.Some? {
          var e := vlans[vid];
          hwMembers := hwMembers[reply.value := HwMember(e.vlanSai, env.bridge[Low16(p)], Low16(p), mustAddTag)];
          vlans := vlans[vid := e.(ports := e.ports + [Member(Low16(p), reply.value)])];
        }
      }
      return RC_OK;
    }

    method VendorDeletePortsFromVlan(vid: U16, query: bool, lPorts: seq<U16>, removed: seq<bool>) returns (rc: int)
      modifies this
      ensures (Now(), rc) == RemoveStep(ports, old(Now()), vid, query, lPorts, removed)
    {
      if vid !in vlans { return RC_OK; }
      if !query { return RC_FAIL; }
      for i := 0 to |lPorts|
        invariant vid in vlans
        invariant RemoveLoop(ports, old(Now()), vid, lPorts, removed)
               == RemoveLoop(ports, Now(), vid, lPorts[i..], Left(removed, i))
      {
        assert lPorts[i..][1..] == lPorts[i + 1..];
        assert Rest(Left(removed, i)) == Left(removed, i + 1);
        var l := lPorts[i];
        if l !in ports { continue; }
        var e := vlans[vid];
        var k := FindMember(e.ports, ports[l].pPort);
        if k == |e.ports| { continue; }
        if i < |removed| && removed[i] {
          hwMembers := hwMembers - {e.ports[k].memberSai};
          vlans := vlans[vid := e.(ports := e.ports[..k] + e.ports[k + 1..])];
        }
      }
      return RC_OK;
    }

    method LogicalPorts(members: seq<Member>) returns (ls: seq<U16>)
      ensures ls == Logicals(ports, members)
    {
      ls := [];
      for i := 0 to |members|
        invariant ls + Logicals(ports, members[i..]) == Logicals(ports, members)
      {
        ghost var before, rest := ls, members[i..];
        assert rest[0] == members[i] && rest[1..] == members[i + 1..];
        var l := GetLogicalPort(ports, 0, members[i].portId);
        if l.Some? {
          ls := ls + [Low16(l.value)];
          assert Logicals(ports, rest) == [Low16(l.value)] + Logicals(ports, rest[1..]);
          assert before + ([Low16(l.value)] + Logicals(ports, rest[1..])) == ls + Logicals(ports, rest[1..]);
        } else {
          assert Logicals(ports, rest) == [] + Logicals(ports, rest[1..]) == Logicals(ports, rest[1..]);
        }
      }
      assert ls + [] == ls;
    }

    /** The reported list is the one a replay would use: member order, ports without a logical name dropped. */
    method VendorGetPortsInVlan(vid: U16) returns (rc: int, ls: seq<U16>)
      ensures vid !in vlans ==> rc == RC_FAIL && ls == []
      ensures vid in vlans ==> rc == RC_OK && ls == Logicals(ports, vlans[vid].ports)
    {
      if vid !in vlans { return RC_FAIL, []; }
      ls := LogicalPorts(vlans[vid].ports);
      return RC_OK, ls;
    }

    method VendorSetPortDefaultVlan(env: Env, lPort: U16, vid: U16, query: bool, set_: bool) returns (rc: int)
      modifies this
      ensures (Now(), rc) == DefaultStep(ports, env, old(Now()), lPort, vid, query, set_)
    {
      if lPort !in ports { return RC_FAIL; }
      var p := Low16(ports[lPort].pPort);
      if vid != 0 && vid !in vlans { return RC_FAIL; }
      if !query { return RC_FAIL; }
      if p !in env.handles { return RC_FAIL; }
      if !set_ { return RC_FAIL; }
      pvid := pvid[env.handles[p] := vid];
      if vid !in vlans {
        vlans := vlans[vid := VlanEntry(NULL_OID, [], NO_PORT)];
      }
      vlans := vlans[vid := vlans[vid].(defaultPortId := p)];
      assert vlans == old(vlans)[vid := vlans[vid]];
      return RC_OK;
    }

    /** set_vlan_member_attribute: UNTAGGED from now on. */
    ghost method SetUntagged(m: Oid)
      modifies this`hwMembers
      ensures hwMembers == Untag(old(hwMembers), {m})
    {
      hwMembers := Untag(hwMembers, {m});
    }

    method TagMembers(members: seq<Member>, p: nat, refused: set<Oid>)
      modifies this`hwMembers
      ensures hwMembers == Untag(old(hwMembers), PortMembers(members, p) - refused)
    {
      for i := 0 to |members|
        invariant hwMembers == Untag(old(hwMembers), PortMembers(members[..i], p) - refused)
      {
        assert members[..i + 1] == members[..i] + [members[i]];
        ghost var before := PortMembers(members[..i], p);
        if members[i].portId == p {
          assert PortMembers(members[..i + 1], p) == before + {members[i].memberSai} by {
            assert members[..i + 1][i] == members[i];
            assert forall k :: 0 <= k < i ==> members[..i + 1][k] == members[..i][k];
          }
          if members[i].memberSai !in refused {
            SetUntagged(members[i].memberSai);
            UntagTwice(old(hwMembers), before - refused, {members[i].memberSai});
          }
          assert (before + {members[i].memberSai}) - refused
              == (before - refused) + ({members[i].memberSai} - refused);
        } else {
          assert PortMembers(members[..i + 1], p) == before by {
            assert forall k :: 0 <= k < i ==> members[..i + 1][k] == members[..i][k];
          }
        }
      }
      assert members[..|members|] == members;
    }

    method TagAll(p: nat, refused: set<Oid>)
      modifies this`hwMembers
      ensures hwMembers == Untag(old(hwMembers), MembersOn(vlans, p) - refused)
    {
      var keys := Sorted(vlans.Keys);
      VisitedNone(hwMembers, vlans, p, refused);
      for k := 0 to |keys|
        invariant hwMembers == Visited(old(hwMembers), vlans, keys[..k], p, refused)
      {
        assert keys[k] in keys;
        assert keys[..k + 1] == keys[..k] + [keys[k]];
        TagMembers(vlans[keys[k]].ports, p, refused);
        VisitedNext(old(hwMembers), vlans, keys[..k], keys[k], p, refused);
      }
      assert keys[..|keys|] == keys;
      VisitedAll(old(hwMembers), vlans, p, refused);
    }

    method VendorTagPacketsOnIngress(lPort: U16, query: bool, refused: set<Oid>) returns (rc: int)
      modifies this
      ensures (Now(), rc) == TagStep(ports, old(Now()), lPort, query, refused)
    {
      if lPort !in ports || !query { return RC_FAIL; }
      var p := ports[lPort].pPort;
      TagAll(p, refused);
      var marked := IsTagPort(p);
      if !marked {
        tagPorts := tagPorts + [Low16(p)];
      }
      return RC_OK;
    }

    /** restoreVlans over the loaded records, through the entry points above. */
    method RestoreVlans(env: Env, recs: seq<Saved>, rs: seq<RestoreReply>) returns (status: bool)
      requires |rs| == |recs| && Now() == EMPTY
      modifies this
      ensures (Now(), status) == Restored(ports, env, recs, rs, |recs|)
    {
      status := true;
      for i := 0 to |recs|
        invariant (Now(), status) == Restored(ports, env, recs, rs, i)
      {
        var ok := RestoreVlan(env, recs[i].vlanNum, recs[i].entry, rs[i]);
        status := status && ok;
      }
    }

    method RestoreVlan(env: Env, vid: U16, e: VlanEntry, r: RestoreReply) returns (status: bool)
      modifies this
      ensures (Now(), status) == RestoreOne(ports, env, old(Now()), vid, e, r)
    {
      var ret := VendorCreateVlan(vid, r.queryCreate, r.created);
      if ret != RC_OK { return false; }
      status := true;
      var portIds := LogicalPorts(e.ports);
      ret := VendorAddPortsToVlan(env, vid, r.queryAdd, portIds, r.members);
      if ret != RC_OK { status := false; }
      if e.defaultPortId != NO_PORT {
        var l := GetLogicalPort(ports, 0, e.defaultPortId);
        if l.None? { return; }
        ret := VendorSetPortDefaultVlan(env, Low16(l.value), vid, r.queryDefault, r.set_);
        if ret != RC_OK { status := false; }
      }
    }
  }
}
