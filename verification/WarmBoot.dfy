/** Warm boot of the VLANs in a freshly initialised process: the port and bridge tables it resolves handles in are the
    ones start-up filled and the bridge restore extended (esalSaiSwitch.cc, esalSaiBridge.cc, esalSaiVlan.cc). */
module WarmBoot {
  import opened Sai
  import opened PortMap
  import opened PortTable
  import opened Vlan
  import opened VlanRestore
  import opened VlanRestoreExact
  import Bridge

  /** The bridge-port handle each port id resolves to. */
  ghost function BridgeMap(s: Bridge.Table): map<U16, Oid> {
    map p: U16 | Bridge.BridgeSaiFor(s, p).Some? :: Bridge.BridgeSaiFor(s, p).value
  }

  ghost function EnvOf(entries: seq<PortEntry>, s: Bridge.Table): Env {
    Env(HandlesOf(entries), BridgeMap(s))
  }

  ghost predicate SwitchPort(list: seq<Oid>, p: U16) {
    exists i :: 0 <= i < |list| && PortIdOf(list[i]) == p
  }

  /** Index of the first port with the id, or the length. */
  function FirstPort(list: seq<Oid>, p: U16): nat {
    FirstById(Filled(list), p)
  }

  /** What start-up leaves resolves exactly the switch's own port ids, each to the handles of the first port with that
      id. */
  lemma InitEnv(list: seq<Oid>, objs: seq<Oid>, p: U16)
    requires |objs| == |list| <= MAX_PORT_TABLE_SIZE
    ensures var env := EnvOf(Filled(list), Bridge.Paired(Filled(list), objs, |list|));
            var i := FirstPort(list, p);
            && (i < |list| <==> SwitchPort(list, p))
            && (p in env.handles <==> i < |list|) && (p in env.bridge <==> i < |list|)
            && (i < |list| ==> env.handles[p] == list[i] && env.bridge[p] == objs[i])
  {
    var entries := Filled(list);
    var s := Bridge.Paired(entries, objs, |list|);
    assert forall i :: 0 <= i < |list| ==>
      entries[i].portId == PortIdOf(list[i]) && s[i].portId == PortIdOf(list[i]) && s[i].bridgePortSai == objs[i];
    var i, k := FirstPort(list, p), Bridge.PortIndex(s, p);
    assert i == k;
  }

  /** Entries added behind change no answer. */
  lemma BridgeMapGrows(s: Bridge.Table, t: Bridge.Table, p: U16)
    requires s <= t && p in BridgeMap(s)
    ensures p in BridgeMap(t) && BridgeMap(t)[p] == BridgeMap(s)[p]
  {
    var i, k := Bridge.PortIndex(s, p), Bridge.PortIndex(t, p);
    assert t[i] == s[i];
    assert forall j :: 0 <= j < i ==> t[j] == s[j];
    assert k == i;
  }

  /** The tables as VLAN restore finds them: start-up, then the bridge restore, whatever SAI refused in it. */
  ghost function RestoredEnv(list: seq<Oid>, objs: seq<Oid>, saved: Bridge.Table, rs: seq<Bridge.CreateReply>): Env
    requires |objs| == |list| && |rs| == |saved|
  {
    EnvOf(
      Filled(list),
      Bridge.RestoreFrom(Bridge.Paired(Filled(list), objs, |list|), Filled(list), saved, rs, |saved|).0)
  }

  /** In them every port id of the switch has its handle and its bridge port, the ones of start-up. */
  lemma RestoredEnvKnows(list: seq<Oid>, objs: seq<Oid>, saved: Bridge.Table, rs: seq<Bridge.CreateReply>, p: U16)
    requires |objs| == |list| <= MAX_PORT_TABLE_SIZE && |rs| == |saved| && SwitchPort(list, p)
    ensures var env, i := RestoredEnv(list, objs, saved, rs), FirstPort(list, p);
            && i < |list| && p in env.handles && env.handles[p] == list[i]
            && p in env.bridge && env.bridge[p] == objs[i]
  {
    InitEnv(list, objs, p);
    var s := Bridge.Paired(Filled(list), objs, |list|);
    Bridge.RestoreExact(s, Filled(list), saved, rs, |saved|, 0, 0);
    BridgeMapGrows(s, Bridge.RestoreFrom(s, Filled(list), saved, rs, |saved|).0, p);
  }

  /** The entry names the switch's own ports, each under a logical name that leads back to it, and none twice. */
  ghost predicate OwnPorts(ports: PortMap, list: seq<Oid>, e: VlanEntry) {
    && Distinct(e.ports)
    && (forall m :: m in e.ports ==> Resolves(ports, m.portId) && SwitchPort(list, m.portId))
    && (e.defaultPortId != NO_PORT ==> Resolves(ports, e.defaultPortId) && SwitchPort(list, e.defaultPortId))
  }

  lemma OwnRestorable(
      ports: PortMap, list: seq<Oid>, objs: seq<Oid>, saved: Bridge.Table, brs: seq<Bridge.CreateReply>,
      e: VlanEntry, r: RestoreReply)
    requires |objs| == |list| <= MAX_PORT_TABLE_SIZE && |brs| == |saved|
    requires OwnPorts(ports, list, e) && AllGranted(e, r)
    ensures Restorable(ports, RestoredEnv(list, objs, saved, brs), e, r)
  {
    forall p: U16 | SwitchPort(list, p)
      ensures p in RestoredEnv(list, objs, saved, brs).handles && p in RestoredEnv(list, objs, saved, brs).bridge
    {
      RestoredEnvKnows(list, objs, saved, brs, p);
    }
  }

  lemma {:induction false} EachRestorable(ports: PortMap, env: Env, recs: seq<Saved>, rs: seq<RestoreReply>, n: nat)
    requires n <= |recs| == |rs| && forall i :: 0 <= i < n ==> Restorable(ports, env, recs[i].entry, rs[i])
    ensures AllRestorable(ports, env, recs, rs, n)
  {
    if n > 0 { EachRestorable(ports, env, recs, rs, n - 1); }
  }

  /** The warm-boot round trip with nothing left to assume about the tables: after start-up from any port list, and
      after any bridge restore, a saved VLAN map whose entries name the switch's own ports comes back as it was, when
      SAI grants the VLAN calls. */
  lemma WarmBootAfterInit(
      ports: PortMap, list: seq<Oid>, objs: seq<Oid>, saved: Bridge.Table, brs: seq<Bridge.CreateReply>,
      m: map<U16, VlanEntry>, rs: seq<RestoreReply>)
    requires |objs| == |list| <= MAX_PORT_TABLE_SIZE && |brs| == |saved| && |rs| == |Serialize(m)|
    requires forall v :: v in m ==> OwnPorts(ports, list, m[v])
    requires TurnsGranted(Serialize(m), rs, |rs|)
    ensures var env := RestoredEnv(list, objs, saved, brs);
            var (t, ok) := Restored(ports, env, Serialize(m), rs, |rs|);
            && ok && t.vlans.Keys == m.Keys && AllTagged(t)
            && (forall v :: v in m ==> SameConfig(t.vlans[v], m[v]))
            && PvidsFollow(env, m, t.pvid)
  {
    var env, recs := RestoredEnv(list, objs, saved, brs), Serialize(m);
    forall i | 0 <= i < |recs| ensures Restorable(ports, env, recs[i].entry, rs[i]) {
      OwnRestorable(ports, list, objs, saved, brs, recs[i].entry, rs[i]);
    }
    EachRestorable(ports, env, recs, rs, |recs|);
    HandlesFollow(Filled(list), 0);
    WarmBootRoundTrip(ports, env, m, rs);
  }
}
