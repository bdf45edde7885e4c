/** Warm boot: the VLAN map is saved as a record list and replayed through the public API (esalSaiVlan.cc). */
module VlanRestore {
  import opened Sai
  import opened Ordered
  import opened PortMap
  import opened PortTable
  import opened Vlan
  import opened VlanTags

  /** One group of the saved "vlanMap" list. */
  datatype Saved = Saved(vlanNum: U16, entry: VlanEntry)

  function Serialize(m: map<U16, VlanEntry>): (recs: seq<Saved>)
    ensures |recs| == |Sorted(m.Keys)|
    ensures forall i :: 0 <= i < |recs| ==>
              recs[i].vlanNum == Sorted(m.Keys)[i] && recs[i].vlanNum in m && recs[i].entry == m[recs[i].vlanNum]
  {
    var keys := Sorted(m.Keys);
    assert forall i :: 0 <= i < |keys| ==> keys[i] in keys;
    seq(|keys|, i requires 0 <= i < |keys| => Saved(keys[i], m[keys[i]]))
  }

  /** Reading the list back into a map: a later group with the same number overwrites an earlier one. */
  function Deserialize(recs: seq<Saved>): map<U16, VlanEntry> {
    if recs == [] then map[]
    else
      var n := |recs| - 1;
      Deserialize(recs[..n])[recs[n].vlanNum := recs[n].entry]
  }

  /** Record i is the last one with its number. */
  ghost predicate LastOf(recs: seq<Saved>, i: nat) {
    i < |recs| && forall j :: i < j < |recs| ==> recs[j].vlanNum != recs[i].vlanNum
  }

  lemma {:induction false} DeserializeLast(recs: seq<Saved>, i: nat)
    requires LastOf(recs, i)
    ensures recs[i].vlanNum in Deserialize(recs) && Deserialize(recs)[recs[i].vlanNum] == recs[i].entry
  {
    var n := |recs| - 1;
    if i < n {
      assert recs[n].vlanNum != recs[i].vlanNum;
      DeserializeLast(recs[..n], i);
    }
  }

  lemma {:induction false} DeserializeKeys(recs: seq<Saved>)
    ensures Deserialize(recs).Keys == set i | 0 <= i < |recs| :: recs[i].vlanNum
  {
    if recs != [] {
      var n := |recs| - 1;
      DeserializeKeys(recs[..n]);
      assert forall i :: 0 <= i < n ==> recs[..n][i] == recs[i];
    }
  }

  lemma SaveLoadAt(m: map<U16, VlanEntry>, v: U16)
    ensures v in Deserialize(Serialize(m)) <==> v in m
    ensures v in m ==> Deserialize(Serialize(m))[v] == m[v]
  {
    var recs, keys := Serialize(m), Sorted(m.Keys);
    DeserializeKeys(recs);
    assert v in keys <==> v in m.Keys;
    if v in m {
      var i :| 0 <= i < |keys| && keys[i] == v;
      assert recs[i].vlanNum == v;
      assert LastOf(recs, i);
      DeserializeLast(recs, i);
    }
  }

  /** Saving and loading a map gives it back. */
  lemma SaveLoad(m: map<U16, VlanEntry>)
    ensures Deserialize(Serialize(m)) == m
  {
    forall v: U16
      ensures v in Deserialize(Serialize(m)) <==> v in m
      ensures v in m ==> Deserialize(Serialize(m))[v] == m[v]
    {
      SaveLoadAt(m, v);
    }
  }

  // Replay.

  /** The logical ports, narrowed to 16 bits, that the saved members are replayed as. */
  function Logicals(ports: PortMap, ms: seq<Member>): seq<U16> {
    if ms == [] then []
    else (match Logical(ports, 0, ms[0].portId) case None => [] case Some(l) => [Low16(l)]) + Logicals(ports, ms[1..])
  }

  /** What SAI answers during one turn: each of the three calls queries the API for itself. */
  datatype RestoreReply = RestoreReply(
    queryCreate: bool,
    created: Option<Oid>,
    queryAdd: bool,
    members: seq<Option<Oid>>,
    queryDefault: bool,
    set_: bool)

  /** The default-port part of a turn: nothing to do without a default port, or without a logical name for it. */
  function DefaultTurn(ports: PortMap, env: Env, s: State, vid: U16, d: U16, query: bool, set_: bool): (State, int) {
    if d == NO_PORT then (s, RC_OK)
    else match Logical(ports, 0, d)
      case None => (s, RC_OK)
      case Some(l) => DefaultStep(ports, env, s, Low16(l), vid, query, set_)
  }

  /** One turn of restoreVlans. */
  function RestoreOne(ports: PortMap, env: Env, s: State, vid: U16, e: VlanEntry, r: RestoreReply): (State, bool) {
    var (s1, rc1) := CreateStep(s, vid, r.queryCreate, r.created);
    if rc1 != RC_OK then (s1, false)
    else
      var (s2, rc2) := AddStep(ports, env, s1, vid, r.queryAdd, Logicals(ports, e.ports), r.members);
      var (s3, rc3) := DefaultTurn(ports, env, s2, vid, e.defaultPortId, r.queryDefault, r.set_);
      (s3, rc2 == RC_OK && rc3 == RC_OK)
  }

  /** The first n records replayed into an empty map. */
  function Restored(ports: PortMap, env: Env, recs: seq<Saved>, rs: seq<RestoreReply>, n: nat): (State, bool)
    requires n <= |recs| == |rs|
  {
    if n == 0 then (EMPTY, true)
    else
      var (s, ok) := Restored(ports, env, recs, rs, n - 1);
      var (t, ok1) := RestoreOne(ports, env, s, recs[n - 1].vlanNum, recs[n - 1].entry, rs[n - 1]);
      (t, ok && ok1)
  }

  /** Port p comes back as itself: it has a logical name on device 0 whose low 16 bits name p again. */
  ghost predicate Resolves(ports: PortMap, p: U16) {
    Replayed(ports, p) == Some(p)
  }

  /** Everything this entry needs is there, and SAI grants it. */
  ghost predicate Restorable(ports: PortMap, env: Env, e: VlanEntry, r: RestoreReply) {
    && Distinct(e.ports)
    && (forall m :: m in e.ports ==> Resolves(ports, m.portId) && m.portId in env.bridge)
    && (e.defaultPortId != NO_PORT ==> Resolves(ports, e.defaultPortId) && e.defaultPortId in env.handles)
    && r.queryCreate && r.created.Some? && r.queryAdd && r.queryDefault && r.set_
    && |r.members| >= |e.ports| && forall i :: 0 <= i < |r.members| ==> r.members[i].Some?
  }

  /** The logical ports ls stand, one by one, for the port ids ids. */
  ghost predicate StandFor(ports: PortMap, ls: seq<U16>, ids: seq<U16>) {
    |ls| == |ids| && forall i :: 0 <= i < |ls| ==> ls[i] in ports && ports[ls[i]].pPort == ids[i]
  }

  lemma {:induction false} LogicalsStandFor(ports: PortMap, ms: seq<Member>)
    requires forall m :: m in ms ==> Resolves(ports, m.portId)
    ensures StandFor(ports, Logicals(ports, ms), Ids(ms))
  {
    if ms != [] {
      assert ms[0] in ms && Resolves(ports, ms[0].portId);
      LogicalsStandFor(ports, ms[1..]);
      var ls, rest := Logicals(ports, ms), Logicals(ports, ms[1..]);
      assert ls == [ls[0]] + rest;
      forall i | 0 <= i < |ls| ensures ls[i] in ports && ports[ls[i]].pPort == Ids(ms)[i] {
        if i > 0 {
          assert ls[i] == rest[i - 1] && Ids(ms)[i] == Ids(ms[1..])[i - 1];
        }
      }
    }
  }

  /** Adding ports that are all new appends them all. */
  lemma {:induction false} AddedAll(ports: PortMap, ls: seq<U16>, ids: seq<U16>, before: seq<U16>)
    requires StandFor(ports, ls, ids)
    requires forall i, j :: 0 <= i < j < |ids| ==> ids[i] != ids[j]
    requires forall i :: 0 <= i < |ids| ==> ids[i] !in before
    ensures AddedIds(ports, before, ls) == before + ids
  {
    if ls == [] {
      assert before + ids == before;
    } else {
      AddedAll(ports, ls[1..], ids[1..], before + [ids[0]]);
      assert before + ids == (before + [ids[0]]) + ids[1..];
    }
  }

  /** All member objects are tagged: the replay never marks a port for tagging. */
  ghost predicate AllTagged(s: State) {
    s.tagPorts == [] && forall o :: o in s.hwMembers ==> !s.hwMembers[o].untagged
  }

  lemma {:induction false} AddLoopTagged(
      ports: PortMap, env: Env, s: State, vid: U16, lPorts: seq<U16>, created: seq<Option<Oid>>)
    requires vid in s.vlans && AllTagged(s)
    ensures AllTagged(AddLoop(ports, env, s, vid, lPorts, created).0)
    decreases lPorts
  {
    if lPorts != [] {
      var (s1, more) := AddOne(ports, env, s, vid, lPorts[0], Reply(created, None));
      if more {
        AddLoopTagged(ports, env, s1, vid, lPorts[1..], Rest(created));
      }
    }
  }

  lemma RestoreOneTagged(ports: PortMap, env: Env, s: State, vid: U16, e: VlanEntry, r: RestoreReply)
    requires AllTagged(s)
    ensures AllTagged(RestoreOne(ports, env, s, vid, e, r).0)
  {
    var s1 := CreateStep(s, vid, r.queryCreate, r.created).0;
    if vid in s1.vlans {
      AddLoopTagged(ports, env, s1, vid, Logicals(ports, e.ports), r.members);
    }
  }

  /** Whatever the records and whatever SAI refuses, every member that comes back comes back tagged: the marks are not
      saved. */
  lemma {:induction false} RestoredTagged(ports: PortMap, env: Env, recs: seq<Saved>, rs: seq<RestoreReply>, n: nat)
    requires n <= |recs| == |rs|
    ensures AllTagged(Restored(ports, env, recs, rs, n).0)
    decreases n
  {
    if n > 0 {
      RestoredTagged(ports, env, recs, rs, n - 1);
      RestoreOneTagged(
        ports, env, Restored(ports, env, recs, rs, n - 1).0, recs[n - 1].vlanNum, recs[n - 1].entry, rs[n - 1]);
    }
  }

  /** An entry is back: same ports in the same order, same default port, whatever the handles. */
  ghost predicate SameConfig(a: VlanEntry, b: VlanEntry) {
    Ids(a.ports) == Ids(b.ports) && a.defaultPortId == b.defaultPortId
  }

  lemma LogicalsFit(ports: PortMap, env: Env, ms: seq<Member>)
    requires StandFor(ports, Logicals(ports, ms), Ids(ms))
    requires forall m :: m in ms ==> m.portId in env.bridge
    ensures forall l :: l in Logicals(ports, ms) ==>
              l in ports && ports[l].pPort < 0x1_0000 && Low16(ports[l].pPort) in env.bridge
  {
    var ls := Logicals(ports, ms);
    forall l | l in ls ensures l in ports && ports[l].pPort < 0x1_0000 && Low16(ports[l].pPort) in env.bridge {
      var i :| 0 <= i < |ls| && ls[i] == l;
      assert ms[i] in ms && Ids(ms)[i] == ms[i].portId;
    }
  }

  /** The member part of one turn. */
  lemma RestoreMembers(ports: PortMap, env: Env, s: State, vid: U16, e: VlanEntry, r: RestoreReply)
    requires vid in s.vlans && s.vlans[vid].ports == [] && AllTagged(s) && Restorable(ports, env, e, r)
    ensures var (t, rc) := AddLoop(ports, env, s, vid, Logicals(ports, e.ports), r.members);
            rc == RC_OK && OnlyMembers(s, t, vid) && Ids(t.vlans[vid].ports) == Ids(e.ports) && AllTagged(t)
  {
    var ls, ids := Logicals(ports, e.ports), Ids(e.ports);
    LogicalsStandFor(ports, e.ports);
    LogicalsFit(ports, env, e.ports);
    AddLoopIds(ports, env, s, vid, ls, r.members);
    AddLoopFrame(ports, env, s, vid, ls, r.members);
    AddLoopTagged(ports, env, s, vid, ls, r.members);
    assert Distinct(e.ports);
    AddedAll(ports, ls, ids, []);
    assert Ids(s.vlans[vid].ports) == [] && [] + ids == ids;
  }

  /** The default-port part of one turn. */
  lemma RestoreDefault(ports: PortMap, env: Env, s: State, vid: U16, p: U16)
    requires vid in s.vlans && Resolves(ports, p) && p in env.handles
    ensures var (t, rc) := DefaultStep(ports, env, s, Low16(Logical(ports, 0, p).value), vid, true, true);
            && rc == RC_OK && t.vlans == s.vlans[vid := s.vlans[vid].(defaultPortId := p)]
            && t == s.(vlans := t.vlans, pvid := s.pvid[env.handles[p] := vid])
  {
  }

  /** Every other VLAN's entry is as it was. */
  lemma RestoreOneSpec(ports: PortMap, env: Env, s: State, vid: U16, e: VlanEntry, r: RestoreReply)
    requires vid !in s.vlans && AllTagged(s) && Restorable(ports, env, e, r)
    ensures var (t, ok) := RestoreOne(ports, env, s, vid, e, r);
            && ok && t.vlans.Keys == s.vlans.Keys + {vid}
            && (forall v :: v in s.vlans ==> t.vlans[v] == s.vlans[v])
            && SameConfig(t.vlans[vid], e) && AllTagged(t)
  {
    var s1 := CreateStep(s, vid, r.queryCreate, r.created).0;
    RestoreMembers(ports, env, s1, vid, e, r);
    var s2 := AddLoop(ports, env, s1, vid, Logicals(ports, e.ports), r.members).0;
    assert AddStep(ports, env, s1, vid, r.queryAdd, Logicals(ports, e.ports), r.members) == (s2, RC_OK);
    if e.defaultPortId != NO_PORT {
      RestoreDefault(ports, env, s2, vid, e.defaultPortId);
    }
  }

  /** The first n records come in increasing VLAN order. */
  ghost predicate Numbered(recs: seq<Saved>, n: nat)
    requires n <= |recs|
  {
    n == 0 || (Numbered(recs, n - 1) && forall i :: 0 <= i < n - 1 ==> recs[i].vlanNum < recs[n - 1].vlanNum)
  }

  lemma {:induction false} SerializeNumbered(m: map<U16, VlanEntry>, n: nat)
    requires n <= |Serialize(m)|
    ensures Numbered(Serialize(m), n)
  {
    if n > 0 { SerializeNumbered(m, n - 1); }
  }

  function Nums(recs: seq<Saved>, n: nat): set<U16>
    requires n <= |recs|
  {
    set i | 0 <= i < n :: recs[i].vlanNum
  }

  /** The first n records are back. */
  ghost predicate Back(recs: seq<Saved>, n: nat, vlans: map<U16, VlanEntry>)
    requires n <= |recs|
  {
    && vlans.Keys == Nums(recs, n)
    && (forall i :: 0 <= i < n ==> recs[i].vlanNum in vlans && SameConfig(vlans[recs[i].vlanNum], recs[i].entry))
  }

  lemma BackStep(recs: seq<Saved>, n: nat, vlans: map<U16, VlanEntry>, vlans': map<U16, VlanEntry>)
    requires n < |recs| && Numbered(recs, n + 1) && Back(recs, n, vlans)
    requires vlans'.Keys == vlans.Keys + {recs[n].vlanNum}
    requires forall v :: v in vlans ==> vlans'[v] == vlans[v]
    requires SameConfig(vlans'[recs[n].vlanNum], recs[n].entry)
    ensures Back(recs, n + 1, vlans')
  {
    assert Nums(recs, n + 1) == Nums(recs, n) + {recs[n].vlanNum};
  }

  /** Where the replay stands after n records. */
  ghost predicate SoFar(recs: seq<Saved>, n: nat, t: State)
    requires n <= |recs|
  {
    AllTagged(t) && Back(recs, n, t.vlans)
  }

  lemma BackOne(ports: PortMap, env: Env, recs: seq<Saved>, n: nat, s: State, r: RestoreReply)
    requires n < |recs| && Numbered(recs, n + 1) && Restorable(ports, env, recs[n].entry, r)
    requires SoFar(recs, n, s)
    ensures var (t, ok) := RestoreOne(ports, env, s, recs[n].vlanNum, recs[n].entry, r);
            ok && SoFar(recs, n + 1, t)
  {
    assert recs[n].vlanNum !in s.vlans;
    RestoreOneSpec(ports, env, s, recs[n].vlanNum, recs[n].entry, r);
    var t := RestoreOne(ports, env, s, recs[n].vlanNum, recs[n].entry, r).0;
    BackStep(recs, n, s.vlans, t.vlans);
  }

  /** The first n records are restorable, each with its own reply. */
  ghost predicate AllRestorable(ports: PortMap, env: Env, recs: seq<Saved>, rs: seq<RestoreReply>, n: nat)
    requires n <= |recs| == |rs|
  {
    n == 0 || (AllRestorable(ports, env, recs, rs, n - 1) && Restorable(ports, env, recs[n - 1].entry, rs[n - 1]))
  }

  lemma {:induction false} RestoredSpec(ports: PortMap, env: Env, recs: seq<Saved>, rs: seq<RestoreReply>, n: nat)
    requires n <= |recs| == |rs| && Numbered(recs, n) && AllRestorable(ports, env, recs, rs, n)
    ensures var (t, ok) := Restored(ports, env, recs, rs, n);
            ok && SoFar(recs, n, t)
    decreases n
  {
    if n > 0 {
      RestoredSpec(ports, env, recs, rs, n - 1);
      var (s, ok) := Restored(ports, env, recs, rs, n - 1);
      BackOne(ports, env, recs, n - 1, s, rs[n - 1]);
      var (t, ok1) := RestoreOne(ports, env, s, recs[n - 1].vlanNum, recs[n - 1].entry, rs[n - 1]);
      assert Restored(ports, env, recs, rs, n) == (t, ok && ok1);
    }
  }

  lemma BackAll(m: map<U16, VlanEntry>, vlans: map<U16, VlanEntry>)
    requires Back(Serialize(m), |Serialize(m)|, vlans)
    ensures vlans.Keys == m.Keys
    ensures forall v :: v in m ==> SameConfig(vlans[v], m[v])
  {
    var recs, keys := Serialize(m), Sorted(m.Keys);
    forall v: U16
      ensures v in m <==> v in Nums(recs, |recs|)
      ensures v in m ==> SameConfig(vlans[v], m[v])
    {
      assert v in keys <==> v in m.Keys;
      if v in m {
        var i :| 0 <= i < |keys| && keys[i] == v;
        assert recs[i].vlanNum == v && SameConfig(vlans[recs[i].vlanNum], recs[i].entry);
      }
    }
  }

  /** Saving any VLAN map, loading it and replaying it into a fresh process gives the same VLAN ids, the same ports in
      the same order and the same default ports. Every member comes back tagged, because the marks are not saved. */
  lemma ReplayBack(ports: PortMap, env: Env, m: map<U16, VlanEntry>, rs: seq<RestoreReply>)
    requires |rs| == |Serialize(m)| && AllRestorable(ports, env, Serialize(m), rs, |rs|)
    ensures Deserialize(Serialize(m)) == m
    ensures var (t, ok) := Restored(ports, env, Serialize(m), rs, |rs|);
            && ok && t.vlans.Keys == m.Keys && AllTagged(t)
            && (forall v :: v in m ==> SameConfig(t.vlans[v], m[v]))
  {
    SaveLoad(m);
    SerializeNumbered(m, |rs|);
    RestoredSpec(ports, env, Serialize(m), rs, |rs|);
    BackAll(m, Restored(ports, env, Serialize(m), rs, |rs|).0.vlans);
  }
}
