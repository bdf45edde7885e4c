/** Exactly which VLAN entries survive a warm boot, once SAI grants every call (esalSaiVlan.cc). */
module VlanRestoreExact {
  import opened Sai
  import opened Ordered
  import opened PortMap
  import opened PortTable
  import opened Vlan
  import opened VlanTags
  import opened VlanRestore
  import opened VlanCalls

  /** SAI grants everything this entry's turn may ask for. */
  ghost predicate AllGranted(e: VlanEntry, r: RestoreReply) {
    r.queryCreate && r.created.Some? && r.queryAdd && Enough(r.members, |e.ports|) && r.queryDefault && r.set_
  }

  ghost predicate Enough(created: seq<Option<Oid>>, n: nat) {
    |created| >= n && forall i :: 0 <= i < |created| ==> created[i].Some?
  }

  /** The list of port ids that replaying `ids` leaves behind `acc`. */
  function Replay(ports: PortMap, env: Env, acc: seq<U16>, ids: seq<U16>): (r: seq<U16>)
    ensures acc <= r && |r| <= |acc| + |ids|
    decreases ids
  {
    if ids == [] then acc
    else match Replayed(ports, ids[0])
      case None => Replay(ports, env, acc, ids[1..])
      case Some(p) =>
        if p in acc then Replay(ports, env, acc, ids[1..])
        else if Low16(p) !in env.bridge then acc
        else Replay(ports, env, acc + [Low16(p)], ids[1..])
  }

  /** Saved port id comes back as itself behind the ids already there: it is replayed to a physical port with the
      same low bits that is not yet listed and that has a bridge port. */
  predicate PortBack(ports: PortMap, env: Env, acc: seq<U16>, id: U16) {
    var p := Replayed(ports, id);
    p.Some? && Low16(p.value) == id && p.value !in acc && id in env.bridge
  }

  predicate PortsBack(ports: PortMap, env: Env, ids: seq<U16>) {
    forall i :: 0 <= i < |ids| ==> PortBack(ports, env, ids[..i], ids[i])
  }

  lemma {:induction false} ReplayExact(ports: PortMap, env: Env, acc: seq<U16>, ids: seq<U16>)
    ensures Replay(ports, env, acc, ids) == acc + ids
       <==> forall i :: 0 <= i < |ids| ==> PortBack(ports, env, acc + ids[..i], ids[i])
    decreases ids
  {
    if ids == [] {
      assert acc + ids == acc;
    } else {
      var acc1, rest := acc + [ids[0]], ids[1..];
      assert acc + ids == acc1 + rest;
      assert acc + ids[..0] == acc;
      forall i | 0 < i < |ids| ensures acc + ids[..i] == acc1 + rest[..i - 1] && ids[i] == rest[i - 1] {
      }
      if PortBack(ports, env, acc, ids[0]) {
        ReplayExact(ports, env, acc1, rest);
        forall j | 0 <= j < |rest| ensures acc1 + rest[..j] == acc + ids[..j + 1] && rest[j] == ids[j + 1] {
        }
      } else {
        assert !PortBack(ports, env, acc + ids[..0], ids[0]);
        ReplayDiffers(ports, env, acc, ids);
      }
    }
  }

  lemma ReplayDiffers(ports: PortMap, env: Env, acc: seq<U16>, ids: seq<U16>)
    requires ids != [] && !PortBack(ports, env, acc, ids[0])
    ensures Replay(ports, env, acc, ids) != acc + ids
  {
    var p := Replayed(ports, ids[0]);
    var r := Replay(ports, env, acc, ids);
    if p.Some? && p.value !in acc && Low16(p.value) in env.bridge {
      assert (acc + [Low16(p.value)]) <= r;
      assert r[|acc|] == Low16(p.value) && (acc + ids)[|acc|] == ids[0];
    }
  }

  /** The driver's loop over the logical ports computes the replay. */
  lemma {:induction false} AddLoopReplays(
      ports: PortMap, env: Env, s: State, vid: U16, ms: seq<Member>, created: seq<Option<Oid>>)
    requires vid in s.vlans && Enough(created, |ms|)
    ensures var t := AddLoop(ports, env, s, vid, Logicals(ports, ms), created).0;
            && OnlyMembers(s, t, vid)
            && Ids(t.vlans[vid].ports) == Replay(ports, env, Ids(s.vlans[vid].ports), Ids(ms))
    decreases ms
  {
    if ms != [] {
      assert Ids(ms)[1..] == Ids(ms[1..]) && Ids(ms)[0] == ms[0].portId;
      match Logical(ports, 0, ms[0].portId)
      case None =>
        assert Logicals(ports, ms) == Logicals(ports, ms[1..]);
        AddLoopReplays(ports, env, s, vid, ms[1..], created);
      case Some(l) =>
        var ls, rest := Logicals(ports, ms), Logicals(ports, ms[1..]);
        assert ls == [Low16(l)] + rest && ls[1..] == rest;
        var (s1, more) := AddOne(ports, env, s, vid, Low16(l), created[0]);
        AddOneReplays(ports, env, s, vid, Low16(l), created[0]);
        if more {
          AddLoopReplays(ports, env, s1, vid, ms[1..], created[1..]);
        }
    }
  }

  lemma AddOneReplays(ports: PortMap, env: Env, s: State, vid: U16, lPort: U16, created: Option<Oid>)
    requires vid in s.vlans && created.Some?
    ensures var (t, more) := AddOne(ports, env, s, vid, lPort, created);
            var acc, acc1 := Ids(s.vlans[vid].ports), Ids(t.vlans[vid].ports);
            && OnlyMembers(s, t, vid)
            && match GetPhysical(ports, lPort)
               case None => more && acc1 == acc
               case Some(p) =>
                 if p in acc then more && acc1 == acc
                 else if Low16(p) !in env.bridge then !more && acc1 == acc
                 else more && acc1 == acc + [Low16(p)]
  {
    if lPort in ports {
      IdsMember(s.vlans[vid].ports, ports[lPort].pPort);
    }
  }

  lemma IdsMember(ms: seq<Member>, p: nat)
    ensures p in Ids(ms) <==> IndexOf(ms, p) < |ms|
  {
    if p in Ids(ms) {
      var i :| 0 <= i < |ms| && Ids(ms)[i] == p;
      assert ms[i].portId == p;
    }
    var k := IndexOf(ms, p);
    if k < |ms| { assert Ids(ms)[k] == p; }
  }

  /** The default port comes back when there was none, or when it is replayed to a port with a handle and the same
      low bits. */
  predicate DefaultBack(ports: PortMap, env: Env, d: U16) {
    d == NO_PORT ||
    (var p := Replayed(ports, d); p.Some? && Low16(p.value) == d && d in env.handles)
  }

  predicate EntryBack(ports: PortMap, env: Env, e: VlanEntry) {
    PortsBack(ports, env, Ids(e.ports)) && DefaultBack(ports, env, e.defaultPortId)
  }

  /** The member part of a granted turn. */
  lemma MembersExact(ports: PortMap, env: Env, s: State, vid: U16, e: VlanEntry, r: RestoreReply)
    requires vid in s.vlans && s.vlans[vid].ports == [] && AllGranted(e, r)
    ensures var t := AddStep(ports, env, s, vid, r.queryAdd, Logicals(ports, e.ports), r.members).0;
            OnlyMembers(s, t, vid) && (Ids(t.vlans[vid].ports) == Ids(e.ports) <==> PortsBack(ports, env, Ids(e.ports)))
  {
    var ids := Ids(e.ports);
    AddLoopReplays(ports, env, s, vid, e.ports, r.members);
    ReplayExact(ports, env, [], ids);
    forall i | 0 <= i < |ids| ensures [] + ids[..i] == ids[..i] {
    }
    assert [] + ids == ids && Ids(s.vlans[vid].ports) == [];
  }

  /** The default-port part of a granted turn. */
  lemma DefaultExact(ports: PortMap, env: Env, s: State, vid: U16, d: U16)
    requires vid in s.vlans && s.vlans[vid].defaultPortId == NO_PORT
    ensures var t := DefaultTurn(ports, env, s, vid, d, true, true).0;
            && vid in t.vlans
            && t.vlans == s.vlans[vid := s.vlans[vid].(defaultPortId := t.vlans[vid].defaultPortId)]
            && (t.vlans[vid].defaultPortId == d <==> DefaultBack(ports, env, d))
  {
  }

  /** One granted turn adds its own VLAN, disturbs no other, and brings the entry back exactly when its ports and
      its default port come back. */
  lemma RestoreOneExact(ports: PortMap, env: Env, s: State, vid: U16, e: VlanEntry, r: RestoreReply)
    requires vid !in s.vlans && AllGranted(e, r)
    ensures OneBack(ports, env, s, RestoreOne(ports, env, s, vid, e, r).0, vid, e)
  {
    var s1 := CreateStep(s, vid, r.queryCreate, r.created).0;
    MembersExact(ports, env, s1, vid, e, r);
    var s2 := AddStep(ports, env, s1, vid, r.queryAdd, Logicals(ports, e.ports), r.members).0;
    DefaultExact(ports, env, s2, vid, e.defaultPortId);
  }

  /** t is s with VLAN vid added, which carries e's configuration exactly when e comes back. */
  ghost predicate OneBack(ports: PortMap, env: Env, s: State, t: State, vid: U16, e: VlanEntry) {
    && t.vlans.Keys == s.vlans.Keys + {vid}
    && (forall v :: v in s.vlans && v != vid ==> t.vlans[v] == s.vlans[v])
    && (SameConfig(t.vlans[vid], e) <==> EntryBack(ports, env, e))
  }

  /** Every one of the first n turns is granted. */
  ghost predicate TurnsGranted(recs: seq<Saved>, rs: seq<RestoreReply>, n: nat)
    requires n <= |recs| == |rs|
  {
    forall i :: 0 <= i < n ==> AllGranted(recs[i].entry, rs[i])
  }

  ghost predicate ExactSoFar(ports: PortMap, env: Env, recs: seq<Saved>, n: nat, t: State)
    requires n <= |recs|
  {
    && t.vlans.Keys == Nums(recs, n)
    && forall i :: 0 <= i < n ==>
         && recs[i].vlanNum in t.vlans
         && (SameConfig(t.vlans[recs[i].vlanNum], recs[i].entry) <==> EntryBack(ports, env, recs[i].entry))
  }

  lemma ExactNext(ports: PortMap, env: Env, recs: seq<Saved>, n: nat, s: State, t: State)
    requires n < |recs| && Numbered(recs, n + 1) && ExactSoFar(ports, env, recs, n, s)
    requires OneBack(ports, env, s, t, recs[n].vlanNum, recs[n].entry)
    ensures ExactSoFar(ports, env, recs, n + 1, t)
  {
    assert Nums(recs, n + 1) == Nums(recs, n) + {recs[n].vlanNum};
  }

  lemma NextTurn(ports: PortMap, env: Env, recs: seq<Saved>, n: nat, s: State, r: RestoreReply)
    requires n < |recs| && Numbered(recs, n + 1) && ExactSoFar(ports, env, recs, n, s) && AllGranted(recs[n].entry, r)
    ensures ExactSoFar(ports, env, recs, n + 1, RestoreOne(ports, env, s, recs[n].vlanNum, recs[n].entry, r).0)
  {
    assert recs[n].vlanNum !in s.vlans;
    RestoreOneExact(ports, env, s, recs[n].vlanNum, recs[n].entry, r);
    ExactNext(ports, env, recs, n, s, RestoreOne(ports, env, s, recs[n].vlanNum, recs[n].entry, r).0);
  }

  lemma {:induction false} RestoredExact(ports: PortMap, env: Env, recs: seq<Saved>, rs: seq<RestoreReply>, n: nat)
    requires n <= |recs| == |rs| && Numbered(recs, n) && TurnsGranted(recs, rs, n)
    ensures ExactSoFar(ports, env, recs, n, Restored(ports, env, recs, rs, n).0)
    decreases n
  {
    if n > 0 {
      RestoredExact(ports, env, recs, rs, n - 1);
      NextTurn(ports, env, recs, n - 1, Restored(ports, env, recs, rs, n - 1).0, rs[n - 1]);
    }
  }

  lemma ExactAt(ports: PortMap, env: Env, m: map<U16, VlanEntry>, t: State, v: U16)
    requires ExactSoFar(ports, env, Serialize(m), |Serialize(m)|, t)
    ensures v in m <==> v in t.vlans
    ensures v in m ==> (SameConfig(t.vlans[v], m[v]) <==> EntryBack(ports, env, m[v]))
  {
    var recs, keys := Serialize(m), Sorted(m.Keys);
    assert v in keys <==> v in m.Keys;
    if v in m {
      var i :| 0 <= i < |keys| && keys[i] == v;
      assert recs[i].vlanNum == v;
    }
  }

  lemma ExactAll(ports: PortMap, env: Env, m: map<U16, VlanEntry>, t: State)
    requires ExactSoFar(ports, env, Serialize(m), |Serialize(m)|, t)
    ensures AllBack(ports, env, m, t.vlans)
  {
    forall v: U16
      ensures v in m <==> v in t.vlans
      ensures v in m ==> (SameConfig(t.vlans[v], m[v]) <==> EntryBack(ports, env, m[v]))
    {
      ExactAt(ports, env, m, t, v);
    }
  }

  /** The same VLANs, each with its saved configuration exactly when its entry comes back. */
  ghost predicate AllBack(ports: PortMap, env: Env, m: map<U16, VlanEntry>, vlans: map<U16, VlanEntry>) {
    && vlans.Keys == m.Keys
    && forall v :: v in m ==> (SameConfig(vlans[v], m[v]) <==> EntryBack(ports, env, m[v]))
  }

  /** With every SAI call granted, replaying a saved map always brings all its VLANs back, and brings an entry back
      with its ports in order and its default port exactly when that entry's own ports are replayed as themselves:
      no entry depends on another. */
  lemma WarmBootExact(ports: PortMap, env: Env, m: map<U16, VlanEntry>, rs: seq<RestoreReply>)
    requires |rs| == |Serialize(m)| && TurnsGranted(Serialize(m), rs, |rs|)
    ensures AllBack(ports, env, m, Restored(ports, env, Serialize(m), rs, |rs|).0.vlans)
  {
    var recs := Serialize(m);
    SerializeNumbered(m, |rs|);
    RestoredExact(ports, env, recs, rs, |recs|);
    ExactAll(ports, env, m, Restored(ports, env, recs, rs, |recs|).0);
  }

  /** What a turn on a new VLAN reports: success exactly when the creation is granted, the additions are queried for and
      name no translated port without a bridge port, and a default port that has a logical name is known, has a handle
      and is set. A port or default port without a logical name is passed over in silence. */
  lemma RestoreOneStatus(ports: PortMap, env: Env, s: State, vid: U16, e: VlanEntry, r: RestoreReply)
    requires vid !in s.vlans
    ensures var l := Logical(ports, 0, e.defaultPortId);
            RestoreOne(ports, env, s, vid, e, r).1 <==>
              && r.queryCreate && r.created.Some?
              && r.queryAdd && !Unbridged(ports, env, [], Logicals(ports, e.ports))
              && (e.defaultPortId != NO_PORT && l.Some? ==>
                    && Low16(l.value) in ports && Low16(ports[Low16(l.value)].pPort) in env.handles
                    && r.queryDefault && r.set_)
  {
    var s1 := CreateStep(s, vid, r.queryCreate, r.created).0;
    if r.queryCreate && r.created.Some? {
      assert Ids(s1.vlans[vid].ports) == [];
      AddLoopAnswer(ports, env, s1, vid, Logicals(ports, e.ports), r.members);
      AddLoopFrame(ports, env, s1, vid, Logicals(ports, e.ports), r.members);
    }
  }

  /** The replay reports success exactly when every turn does: a failed turn does not stop it, and is not forgotten. */
  lemma {:induction false} RestoredStatus(
      ports: PortMap, env: Env, recs: seq<Saved>, rs: seq<RestoreReply>, n: nat)
    requires n <= |recs| == |rs|
    ensures Restored(ports, env, recs, rs, n).1 <==>
              forall i :: 0 <= i < n ==> TurnOk(ports, env, recs, rs, i)
  {
    if n > 0 {
      RestoredStatus(ports, env, recs, rs, n - 1);
      var before, last := Restored(ports, env, recs, rs, n - 1), TurnOk(ports, env, recs, rs, n - 1);
      assert Restored(ports, env, recs, rs, n).1 == (before.1 && last);
    }
  }

  predicate TurnOk(ports: PortMap, env: Env, recs: seq<Saved>, rs: seq<RestoreReply>, i: nat)
    requires i < |recs| == |rs|
  {
    RestoreOne(ports, env, Restored(ports, env, recs, rs, i).0, recs[i].vlanNum, recs[i].entry, rs[i]).1
  }

  // The default VLANs in hardware.

  /** The port whose default VLAN a granted turn of this entry sets. */
  function Target(ports: PortMap, env: Env, e: VlanEntry): Option<U16> {
    if e.defaultPortId == NO_PORT then None
    else match Replayed(ports, e.defaultPortId)
      case None => None
      case Some(p) => if Low16(p) in env.handles then Some(Low16(p)) else None
  }

  /** The default-VLAN table after that turn. */
  ghost predicate Sets(env: Env, pvid: map<Oid, U16>, pvid': map<Oid, U16>, vid: U16, target: Option<U16>) {
    match target
    case None => pvid' == pvid
    case Some(p) => p in env.handles && pvid' == pvid[env.handles[p] := vid]
  }

  lemma RestoreOneSets(ports: PortMap, env: Env, s: State, vid: U16, e: VlanEntry, r: RestoreReply)
    requires AllGranted(e, r)
    ensures Sets(env, s.pvid, RestoreOne(ports, env, s, vid, e, r).0.pvid, vid, Target(ports, env, e))
  {
    var s1 := CreateStep(s, vid, r.queryCreate, r.created).0;
    AddLoopFrame(ports, env, s1, vid, Logicals(ports, e.ports), r.members);
  }

  function PvidOf(env: Env, pvid: map<Oid, U16>, p: U16): Option<U16>
    requires p in env.handles
  {
    if env.handles[p] in pvid then Some(pvid[env.handles[p]]) else None
  }

  /** The last of the first n records to set p's default VLAN. */
  function LastTarget(ports: PortMap, env: Env, recs: seq<Saved>, n: nat, p: U16): Option<U16>
    requires n <= |recs|
  {
    if n == 0 then None
    else if Target(ports, env, recs[n - 1].entry) == Some(p) then Some(recs[n - 1].vlanNum)
    else LastTarget(ports, env, recs, n - 1, p)
  }

  lemma SetsOne(env: Env, pvid: map<Oid, U16>, pvid': map<Oid, U16>, vid: U16, target: Option<U16>, p: U16)
    requires HandlesOk(env.handles) && p in env.handles && Sets(env, pvid, pvid', vid, target)
    ensures PvidOf(env, pvid', p) == if target == Some(p) then Some(vid) else PvidOf(env, pvid, p)
  {
    assert PortIdOf(env.handles[p]) == p;
    assert target.Some? ==> PortIdOf(env.handles[target.value]) == target.value;
  }

  /** In s, p's default VLAN is the last that the first n records set. */
  ghost predicate PvidSoFar(ports: PortMap, env: Env, recs: seq<Saved>, n: nat, p: U16, s: State)
    requires n <= |recs| && p in env.handles
  {
    PvidOf(env, s.pvid, p) == LastTarget(ports, env, recs, n, p)
  }

  lemma NextPvid(ports: PortMap, env: Env, recs: seq<Saved>, n: nat, p: U16, s: State, r: RestoreReply)
    requires n < |recs| && AllGranted(recs[n].entry, r) && HandlesOk(env.handles) && p in env.handles
    requires PvidSoFar(ports, env, recs, n, p, s)
    ensures PvidSoFar(ports, env, recs, n + 1, p, RestoreOne(ports, env, s, recs[n].vlanNum, recs[n].entry, r).0)
  {
    var vid, e := recs[n].vlanNum, recs[n].entry;
    RestoreOneSets(ports, env, s, vid, e, r);
    SetsOne(env, s.pvid, RestoreOne(ports, env, s, vid, e, r).0.pvid, vid, Target(ports, env, e), p);
  }

  lemma {:induction false} RestoredPvid(
      ports: PortMap, env: Env, recs: seq<Saved>, rs: seq<RestoreReply>, n: nat, p: U16)
    requires n <= |recs| == |rs| && HandlesOk(env.handles) && p in env.handles && TurnsGranted(recs, rs, n)
    ensures PvidSoFar(ports, env, recs, n, p, Restored(ports, env, recs, rs, n).0)
    decreases n
  {
    if n > 0 {
      RestoredPvid(ports, env, recs, rs, n - 1, p);
      NextPvid(ports, env, recs, n - 1, p, Restored(ports, env, recs, rs, n - 1).0, rs[n - 1]);
    }
  }

  predicate SetsPort(ports: PortMap, env: Env, rec: Saved, p: U16) {
    Target(ports, env, rec.entry) == Some(p)
  }

  lemma {:induction false} LastTargetIs(ports: PortMap, env: Env, recs: seq<Saved>, n: nat, p: U16)
    requires n <= |recs| && Numbered(recs, n)
    ensures match LastTarget(ports, env, recs, n, p)
            case None => forall i :: 0 <= i < n ==> !SetsPort(ports, env, recs[i], p)
            case Some(v) =>
              && (exists i :: 0 <= i < n && recs[i].vlanNum == v && SetsPort(ports, env, recs[i], p))
              && (forall i :: 0 <= i < n && SetsPort(ports, env, recs[i], p) ==> recs[i].vlanNum <= v)
  {
    if n > 0 { LastTargetIs(ports, env, recs, n - 1, p); }
  }

  /** v is the greatest VLAN whose entry sets p's default VLAN. */
  ghost predicate GreatestTarget(ports: PortMap, env: Env, m: map<U16, VlanEntry>, p: U16, v: U16) {
    && v in m && SetsPort(ports, env, Saved(v, m[v]), p)
    && forall w :: w in m && SetsPort(ports, env, Saved(w, m[w]), p) ==> w <= v
  }

  /** In the saved order the last VLAN to set a port's default is the greatest. */
  lemma GreatestIsLast(ports: PortMap, env: Env, m: map<U16, VlanEntry>, p: U16, v: U16)
    ensures LastTarget(ports, env, Serialize(m), |Serialize(m)|, p) == Some(v) <==> GreatestTarget(ports, env, m, p, v)
  {
    var recs := Serialize(m);
    SerializeNumbered(m, |recs|);
    LastTargetIs(ports, env, recs, |recs|, p);
    forall w | w in m && SetsPort(ports, env, Saved(w, m[w]), p)
      ensures exists i :: 0 <= i < |recs| && recs[i].vlanNum == w && SetsPort(ports, env, recs[i], p)
    {
      var i := SavedAt(m, w);
    }
    forall i | 0 <= i < |recs| ensures recs[i] == Saved(recs[i].vlanNum, m[recs[i].vlanNum]) {
    }
  }

  lemma SavedAt(m: map<U16, VlanEntry>, v: U16) returns (i: nat)
    requires v in m
    ensures i < |Serialize(m)| && Serialize(m)[i] == Saved(v, m[v])
  {
    var keys := Sorted(m.Keys);
    assert v in keys;
    i :| 0 <= i < |keys| && keys[i] == v;
  }

  /** Every port's default VLAN is the greatest that sets it, and unset when none does. */
  ghost predicate PvidsExact(ports: PortMap, env: Env, m: map<U16, VlanEntry>, pvid: map<Oid, U16>) {
    forall p, v: U16 :: p in env.handles ==>
      (PvidOf(env, pvid, p) == Some(v) <==> GreatestTarget(ports, env, m, p, v))
  }

  /** With every SAI call granted, for any saved map: the hardware's default VLAN of a port becomes the greatest VLAN
      whose default port is replayed to it, and stays unset when there is none. */
  lemma WarmBootPvid(ports: PortMap, env: Env, m: map<U16, VlanEntry>, rs: seq<RestoreReply>)
    requires HandlesOk(env.handles) && |rs| == |Serialize(m)| && TurnsGranted(Serialize(m), rs, |rs|)
    ensures PvidsExact(ports, env, m, Restored(ports, env, Serialize(m), rs, |rs|).0.pvid)
  {
    var recs := Serialize(m);
    forall p, v: U16 | p in env.handles
      ensures PvidOf(env, Restored(ports, env, recs, rs, |rs|).0.pvid, p) == Some(v)
         <==> GreatestTarget(ports, env, m, p, v)
    {
      RestoredPvid(ports, env, recs, rs, |recs|, p);
      GreatestIsLast(ports, env, m, p, v);
    }
  }

  /** v is the greatest VLAN whose default port is p. */
  ghost predicate GreatestDefault(m: map<U16, VlanEntry>, p: U16, v: U16) {
    v in m && m[v].defaultPortId == p && forall w :: w in m && m[w].defaultPortId == p ==> w <= v
  }

  lemma {:induction false} RestorableAt(
      ports: PortMap, env: Env, recs: seq<Saved>, rs: seq<RestoreReply>, n: nat, i: nat)
    requires i < n <= |recs| == |rs| && AllRestorable(ports, env, recs, rs, n)
    ensures Restorable(ports, env, recs[i].entry, rs[i])
  {
    if i < n - 1 { RestorableAt(ports, env, recs, rs, n - 1, i); }
  }

  lemma RestorableGranted(ports: PortMap, env: Env, recs: seq<Saved>, rs: seq<RestoreReply>)
    requires |rs| == |recs| && AllRestorable(ports, env, recs, rs, |rs|)
    ensures TurnsGranted(recs, rs, |rs|)
  {
    forall i | 0 <= i < |recs| ensures AllGranted(recs[i].entry, rs[i]) {
      RestorableAt(ports, env, recs, rs, |recs|, i);
    }
  }

  /** A restorable entry's default port is replayed as itself. */
  lemma RestorableTarget(ports: PortMap, env: Env, e: VlanEntry, r: RestoreReply)
    requires Restorable(ports, env, e, r) && e.defaultPortId != NO_PORT
    ensures Target(ports, env, e) == Some(e.defaultPortId)
  {
  }

  lemma RestorableDefaults(ports: PortMap, env: Env, m: map<U16, VlanEntry>, rs: seq<RestoreReply>)
    requires |rs| == |Serialize(m)| && AllRestorable(ports, env, Serialize(m), rs, |rs|)
    ensures DefaultsResolve(ports, env, m)
  {
    forall v | v in m && m[v].defaultPortId != NO_PORT ensures Target(ports, env, m[v]) == Some(m[v].defaultPortId) {
      var i := SavedAt(m, v);
      RestorableAt(ports, env, Serialize(m), rs, |rs|, i);
      RestorableTarget(ports, env, m[v], rs[i]);
    }
  }

  ghost predicate DefaultsResolve(ports: PortMap, env: Env, m: map<U16, VlanEntry>) {
    forall v :: v in m && m[v].defaultPortId != NO_PORT ==> Target(ports, env, m[v]) == Some(m[v].defaultPortId)
  }

  /** The hardware's default VLAN of a port is the greatest VLAN that names it. */
  ghost predicate PvidsFollow(env: Env, m: map<U16, VlanEntry>, pvid: map<Oid, U16>) {
    forall p, v: U16 :: p in env.handles && p != NO_PORT ==>
      (PvidOf(env, pvid, p) == Some(v) <==> GreatestDefault(m, p, v))
  }

  lemma TargetsAreDefaults(ports: PortMap, env: Env, m: map<U16, VlanEntry>, pvid: map<Oid, U16>)
    requires DefaultsResolve(ports, env, m) && PvidsExact(ports, env, m, pvid)
    ensures PvidsFollow(env, m, pvid)
  {
    forall p, v: U16 | p in env.handles && p != NO_PORT
      ensures GreatestTarget(ports, env, m, p, v) <==> GreatestDefault(m, p, v)
    {
    }
  }

  /** The warm-boot round trip. Saving any VLAN map, loading it and replaying it into a fresh process gives the
      same VLAN ids, the same ports in the same order and the same default ports. Every member comes back
      tagged, because the marks are not saved; and the hardware's default VLAN of a port becomes the greatest
      VLAN that names it, whatever it was before. */
  lemma WarmBootRoundTrip(ports: PortMap, env: Env, m: map<U16, VlanEntry>, rs: seq<RestoreReply>)
    requires HandlesOk(env.handles) && |rs| == |Serialize(m)| && AllRestorable(ports, env, Serialize(m), rs, |rs|)
    ensures Deserialize(Serialize(m)) == m
    ensures var (t, ok) := Restored(ports, env, Serialize(m), rs, |rs|);
            && ok && t.vlans.Keys == m.Keys && AllTagged(t)
            && (forall v :: v in m ==> SameConfig(t.vlans[v], m[v]))
            && PvidsFollow(env, m, t.pvid)
  {
    ReplayBack(ports, env, m, rs);
    RestorableGranted(ports, env, Serialize(m), rs);
    RestorableDefaults(ports, env, m, rs);
    WarmBootPvid(ports, env, m, rs);
    TargetsAreDefaults(ports, env, m, Restored(ports, env, Serialize(m), rs, |rs|).0.pvid);
  }

  // Map and hardware after the replay.

  /** The handles granted during one turn are new. */
  ghost predicate FreshTurn(ports: PortMap, env: Env, s: State, vid: U16, e: VlanEntry, r: RestoreReply) {
    && (r.created.Some? ==> r.created.value != NULL_OID && r.created.value !in s.hwVlans)
    && var s1 := CreateStep(s, vid, r.queryCreate, r.created).0;
       vid in s1.vlans ==> FreshMembers(ports, env, s1, vid, Logicals(ports, e.ports), r.members)
  }

  ghost predicate FreshReplay(ports: PortMap, env: Env, recs: seq<Saved>, rs: seq<RestoreReply>, n: nat)
    requires n <= |recs| == |rs|
  {
    n == 0 ||
    (FreshReplay(ports, env, recs, rs, n - 1) &&
     FreshTurn(ports, env, Restored(ports, env, recs, rs, n - 1).0, recs[n - 1].vlanNum, recs[n - 1].entry, rs[n - 1]))
  }

  lemma AddStepInv(ports: PortMap, env: Env, s: State, vid: U16, query: bool, ls: seq<U16>, created: seq<Option<Oid>>)
    requires Vlan.Inv(s) && (vid in s.vlans ==> FreshMembers(ports, env, s, vid, ls, created))
    ensures Vlan.Inv(AddStep(ports, env, s, vid, query, ls, created).0)
  {
    if vid in s.vlans && query { AddLoopInv(ports, env, s, vid, ls, created); }
  }

  lemma RestoreOneInv(ports: PortMap, env: Env, s: State, vid: U16, e: VlanEntry, r: RestoreReply)
    requires Vlan.Inv(s) && FreshTurn(ports, env, s, vid, e, r)
    ensures Vlan.Inv(RestoreOne(ports, env, s, vid, e, r).0)
  {
    var s1 := CreateStep(s, vid, r.queryCreate, r.created).0;
    CreateInv(s, vid, r.queryCreate, r.created);
    var ls := Logicals(ports, e.ports);
    AddStepInv(ports, env, s1, vid, r.queryAdd, ls, r.members);
    var s2 := AddStep(ports, env, s1, vid, r.queryAdd, ls, r.members).0;
    DefaultTurnInv(ports, env, s2, vid, e.defaultPortId, r.queryDefault, r.set_);
  }

  lemma DefaultTurnInv(ports: PortMap, env: Env, s: State, vid: U16, d: U16, query: bool, set_: bool)
    requires Vlan.Inv(s)
    ensures Vlan.Inv(DefaultTurn(ports, env, s, vid, d, query, set_).0)
  {
    match Logical(ports, 0, d)
    case None =>
    case Some(l) => DefaultInv(ports, env, s, Low16(l), vid, query, set_);
  }

  /** Whatever SAI refuses on the way, a replay with new handles ends with map and hardware in agreement. */
  lemma {:induction false} RestoredInv(ports: PortMap, env: Env, recs: seq<Saved>, rs: seq<RestoreReply>, n: nat)
    requires n <= |recs| == |rs| && FreshReplay(ports, env, recs, rs, n)
    ensures Vlan.Inv(Restored(ports, env, recs, rs, n).0)
    decreases n
  {
    if n > 0 {
      RestoredInv(ports, env, recs, rs, n - 1);
      var s := Restored(ports, env, recs, rs, n - 1).0;
      RestoreOneInv(ports, env, s, recs[n - 1].vlanNum, recs[n - 1].entry, rs[n - 1]);
    }
  }
}
