/** What each VLAN call answers and what it leaves, call by call (esalSaiVlan.cc). */
module VlanCalls {
  import opened Sai
  import opened PortMap
  import opened PortTable
  import opened Vlan
  import opened VlanTags

  /** Only VLAN vid's entry and handle may differ. */
  ghost predicate OnlyVlan(s: State, t: State, vid: U16) {
    && (forall v :: v != vid ==> (v in t.vlans <==> v in s.vlans))
    && (forall v :: v != vid && v in s.vlans ==> t.vlans[v] == s.vlans[v])
    && t.tagPorts == s.tagPorts && t.hwMembers == s.hwMembers && t.pvid == s.pvid
  }

  /** OK means the VLAN is there: as it was, or new, with no ports, no default port and the handle SAI gave. A failure
      comes exactly of a refusal and changes nothing. */
  lemma CreateAnswer(s: State, vid: U16, query: bool, created: Option<Oid>)
    ensures var (t, rc) := CreateStep(s, vid, query, created);
            && (rc == RC_OK <==> vid in s.vlans || (query && created.Some?))
            && (rc == RC_OK ==> vid in t.vlans) && (rc != RC_OK ==> rc == RC_FAIL && t == s)
            && (vid in s.vlans ==> t == s)
            && (rc == RC_OK && vid !in s.vlans ==>
                  && OnlyVlan(s, t, vid) && t.hwVlans == s.hwVlans[created.value := vid]
                  && t.vlans[vid] == VlanEntry(created.value, [], NO_PORT))
  {
  }

  /** OK means the VLAN is gone from the map and, if it was there, from the hardware; a failure comes exactly of a
      refusal on a VLAN that is there, and changes nothing. */
  lemma DeleteAnswer(s: State, vid: U16, query: bool, removed: bool)
    ensures var (t, rc) := DeleteStep(s, vid, query, removed);
            && (rc == RC_OK <==> vid !in s.vlans || (query && removed))
            && (rc == RC_OK ==> vid !in t.vlans) && (rc != RC_OK ==> rc == RC_FAIL && t == s)
            && (vid !in s.vlans ==> t == s)
            && (rc == RC_OK && vid in s.vlans ==>
                  && OnlyVlan(s, t, vid) && s.vlans[vid].vlanSai !in t.hwVlans
                  && forall o :: o in s.hwVlans && o != s.vlans[vid].vlanSai ==>
                       o in t.hwVlans && t.hwVlans[o] == s.hwVlans[o])
  {
  }

  // Additions.

  /** The batch names a known port that is not listed yet and has no bridge port. */
  ghost predicate Unbridged(ports: PortMap, env: Env, ids: seq<U16>, lPorts: seq<U16>) {
    exists j :: 0 <= j < |lPorts| && Missing(ports, env, ids, lPorts[j])
  }

  predicate Missing(ports: PortMap, env: Env, ids: seq<U16>, l: U16) {
    l in ports && ports[l].pPort !in ids && Low16(ports[l].pPort) !in env.bridge
  }

  /** A turn changes nothing about which ports are missing. */
  lemma MissingStays(ports: PortMap, env: Env, s: State, vid: U16, l: U16, created: Option<Oid>, k: U16)
    requires vid in s.vlans
    ensures var t := AddOne(ports, env, s, vid, l, created).0;
            && vid in t.vlans
            && (Missing(ports, env, Ids(t.vlans[vid].ports), k) <==> Missing(ports, env, Ids(s.vlans[vid].ports), k))
  {
    var t := AddOne(ports, env, s, vid, l, created).0;
    var a, b := Ids(s.vlans[vid].ports), Ids(t.vlans[vid].ports);
    if t != s {
      assert b == a + [Low16(ports[l].pPort)];
    }
  }

  lemma TurnStops(ports: PortMap, env: Env, s: State, vid: U16, l: U16, created: Option<Oid>)
    requires vid in s.vlans
    ensures !AddOne(ports, env, s, vid, l, created).1 <==> Missing(ports, env, Ids(s.vlans[vid].ports), l)
  {
    if l in ports {
      var ms, p := s.vlans[vid].ports, ports[l].pPort;
      if p in Ids(ms) {
        var i :| 0 <= i < |ms| && Ids(ms)[i] == p;
        assert ms[i].portId == p;
      }
      if IndexOf(ms, p) < |ms| { assert Ids(ms)[IndexOf(ms, p)] == p; }
    }
  }

  /** A batch of additions fails exactly when it names a known port, not listed yet, without a bridge port, whatever
      creations are refused. */
  lemma {:induction false} AddLoopAnswer(
      ports: PortMap, env: Env, s: State, vid: U16, lPorts: seq<U16>, created: seq<Option<Oid>>)
    requires vid in s.vlans
    ensures var rc := AddLoop(ports, env, s, vid, lPorts, created).1;
            && (rc == RC_OK || rc == RC_FAIL)
            && (rc == RC_FAIL <==> Unbridged(ports, env, Ids(s.vlans[vid].ports), lPorts))
    decreases lPorts
  {
    if lPorts != [] {
      var l, r := lPorts[0], Reply(created, None);
      var (s1, more) := AddOne(ports, env, s, vid, l, r);
      var a := Ids(s.vlans[vid].ports);
      TurnStops(ports, env, s, vid, l, r);
      if more {
        AddLoopAnswer(ports, env, s1, vid, lPorts[1..], Rest(created));
        var b := Ids(s1.vlans[vid].ports);
        forall k: U16 ensures Missing(ports, env, b, k) <==> Missing(ports, env, a, k) {
          MissingStays(ports, env, s, vid, l, r, k);
        }
        if j :| 0 <= j < |lPorts| && Missing(ports, env, a, lPorts[j]) {
          assert lPorts[1..][j - 1] == lPorts[j];
        }
        if j :| 0 <= j < |lPorts| - 1 && Missing(ports, env, b, lPorts[1..][j]) {
          assert lPorts[j + 1] == lPorts[1..][j];
        }
      }
    }
  }

  /** A refused creation is passed over: the batch goes on as if that port, which has a bridge port, were not named. */
  lemma RefusedPassedOver(ports: PortMap, env: Env, s: State, vid: U16, lPorts: seq<U16>, created: seq<Option<Oid>>)
    requires vid in s.vlans && lPorts != [] && Reply(created, None).None?
    requires !Missing(ports, env, Ids(s.vlans[vid].ports), lPorts[0])
    ensures AddLoop(ports, env, s, vid, lPorts, created) == AddLoop(ports, env, s, vid, lPorts[1..], Rest(created))
  {
    TurnStops(ports, env, s, vid, lPorts[0], None);
  }

  /** The object is one the batch makes: for a port it names, on that port's bridge port, tagged unless marked. */
  ghost predicate MadeFor(ports: PortMap, env: Env, s: State, vid: U16, lPorts: seq<U16>, x: HwMember)
    requires vid in s.vlans
  {
    exists l :: l in lPorts && MadeOn(ports, env, s, vid, l, x)
  }

  predicate MadeOn(ports: PortMap, env: Env, s: State, vid: U16, l: U16, x: HwMember)
    requires vid in s.vlans
  {
    && l in ports && Low16(ports[l].pPort) in env.bridge
    && x.vlanSai == s.vlans[vid].vlanSai && x.port == Low16(ports[l].pPort)
    && x.bridgePort == env.bridge[Low16(ports[l].pPort)] && x.untagged == (ports[l].pPort in s.tagPorts)
  }

  /** Unknown VLANs are accepted and nothing happens; a refused query changes nothing. Otherwise the answer is that of
      the batch, which touches one VLAN's list and members only, appends ports it names, and makes each member on the
      bridge port of its own port. */
  lemma AddAnswer(
      ports: PortMap, env: Env, s: State, vid: U16, query: bool, lPorts: seq<U16>, created: seq<Option<Oid>>)
    requires vid in s.vlans ==> FreshMembers(ports, env, s, vid, lPorts, created)
    ensures var (t, rc) := AddStep(ports, env, s, vid, query, lPorts, created);
            && (vid !in s.vlans ==> t == s && rc == RC_OK)
            && (vid in s.vlans && !query ==> t == s && rc == RC_FAIL)
            && (vid in s.vlans && query ==>
                  && (rc == RC_OK || rc == RC_FAIL)
                  && (rc == RC_FAIL <==> Unbridged(ports, env, Ids(s.vlans[vid].ports), lPorts))
                  && OnlyMembers(s, t, vid) && Extends(ports, s.vlans[vid].ports, t.vlans[vid].ports, lPorts)
                  && OwnObjects(s, t, vid) && s.hwMembers.Keys <= t.hwMembers.Keys
                  && forall o :: o in t.hwMembers && o !in s.hwMembers ==>
                       MadeFor(ports, env, s, vid, lPorts, t.hwMembers[o]))
  {
    if vid in s.vlans && query {
      AddLoopAnswer(ports, env, s, vid, lPorts, created);
      AddLoopFrame(ports, env, s, vid, lPorts, created);
      AddLoopObjects(ports, env, s, vid, lPorts, created);
      AddLoopMembers(ports, env, s, vid, lPorts, created);
    }
  }

  lemma MadeForTurn(
      ports: PortMap, env: Env, s: State, t: State, vid: U16, lPorts: seq<U16>, x: HwMember)
    requires lPorts != [] && vid in s.vlans && vid in t.vlans && MadeFor(ports, env, t, vid, lPorts[1..], x)
    requires t.vlans[vid].vlanSai == s.vlans[vid].vlanSai && t.tagPorts == s.tagPorts
    ensures MadeFor(ports, env, s, vid, lPorts, x)
  {
    var l :| l in lPorts[1..] && MadeOn(ports, env, t, vid, l, x);
    assert l in lPorts && MadeOn(ports, env, s, vid, l, x);
  }

  lemma {:induction false} AddLoopMembers(
      ports: PortMap, env: Env, s: State, vid: U16, lPorts: seq<U16>, created: seq<Option<Oid>>)
    requires vid in s.vlans && FreshMembers(ports, env, s, vid, lPorts, created)
    ensures var t := AddLoop(ports, env, s, vid, lPorts, created).0;
            forall o :: o in t.hwMembers && o !in s.hwMembers ==> MadeFor(ports, env, s, vid, lPorts, t.hwMembers[o])
    decreases lPorts
  {
    if lPorts != [] {
      var l, r := lPorts[0], Reply(created, None);
      var (s1, more) := AddOne(ports, env, s, vid, l, r);
      var t := AddLoop(ports, env, s, vid, lPorts, created).0;
      if more {
        AddLoopMembers(ports, env, s1, vid, lPorts[1..], Rest(created));
        AddLoopObjects(ports, env, s1, vid, lPorts[1..], Rest(created));
      }
      forall o | o in t.hwMembers && o !in s.hwMembers ensures MadeFor(ports, env, s, vid, lPorts, t.hwMembers[o]) {
        if o in s1.hwMembers {
          assert l in lPorts && MadeOn(ports, env, s, vid, l, s1.hwMembers[o]);
        } else {
          MadeForTurn(ports, env, s, s1, vid, lPorts, t.hwMembers[o]);
        }
      }
    }
  }

  // Removals.

  /** Unknown VLANs are accepted and nothing happens; a refused query changes nothing. Otherwise the answer is OK, each
      port loses from the front as many members as the batch is granted for it, the objects that go are exactly those
      of the members that left, and everything else is as it was. */
  lemma RemoveAnswer(
      ports: PortMap, s: State, vid: U16, query: bool, lPorts: seq<U16>, removed: seq<bool>)
    requires Inv(s)
    ensures var (t, rc) := RemoveStep(ports, s, vid, query, lPorts, removed);
            && (vid !in s.vlans ==> t == s && rc == RC_OK)
            && (vid in s.vlans && !query ==> t == s && rc == RC_FAIL)
            && (vid in s.vlans && query ==>
                  && rc == RC_OK && OnlyMembers(s, t, vid)
                  && t.vlans[vid].ports == Cut(s.vlans[vid].ports, Grants(ports, lPorts, removed))
                  && (forall o :: o in t.hwMembers ==> o in s.hwMembers && t.hwMembers[o] == s.hwMembers[o])
                  && (forall o :: o in s.hwMembers ==>
                        (o !in t.hwMembers <==> LeftWith(s.vlans[vid].ports, t.vlans[vid].ports, o))))
  {
    if vid in s.vlans && query {
      var t := RemoveLoop(ports, s, vid, lPorts, removed);
      RemoveLoopExact(ports, s, vid, lPorts, removed);
      RemoveLoopFrame(ports, s, vid, lPorts, removed);
      RemoveLoopObjects(ports, s, vid, lPorts, removed);
      RemoveLoopInv(ports, s, vid, lPorts, removed);
      forall o | o in s.hwMembers
        ensures o !in t.hwMembers <==> LeftWith(s.vlans[vid].ports, t.vlans[vid].ports, o)
      {
        GoneIsLeft(s, t, vid, o);
      }
    }
  }

  /** A member with this handle was listed and is not any more. */
  ghost predicate LeftWith(before: seq<Member>, after: seq<Member>, o: Oid) {
    exists m :: m in before && m !in after && m.memberSai == o
  }

  /** Where map and hardware agree before and after, an object is gone exactly when its member left. */
  lemma GoneIsLeft(s: State, t: State, vid: U16, o: Oid)
    requires Inv(s) && Inv(t) && OnlyMembers(s, t, vid) && OwnObjects(s, t, vid) && o in s.hwMembers
    requires t.hwMembers.Keys <= s.hwMembers.Keys
    ensures o !in t.hwMembers <==> LeftWith(s.vlans[vid].ports, t.vlans[vid].ports, o)
  {
    assert Recorded(s, o);
    if o !in t.hwMembers {
      var m := Member(s.hwMembers[o].port, o);
      assert m in s.vlans[vid].ports && m !in t.vlans[vid].ports;
    } else {
      assert Recorded(t, o);
      forall m | m in s.vlans[vid].ports && m.memberSai == o ensures m in t.vlans[vid].ports {
        assert s.hwMembers[o].vlanSai == s.vlans[vid].vlanSai && s.hwMembers[o].port == m.portId;
      }
    }
  }

  // Default VLAN and tagging.

  /** OK exactly for a known logical port with a handle, on a VLAN that is there or VLAN 0, with both calls granted;
      then the port is the VLAN's default port and the VLAN the port's default in hardware; nothing else moves, except
      that VLAN 0 comes into being without ports or handle. */
  lemma DefaultAnswer(ports: PortMap, env: Env, s: State, lPort: U16, vid: U16, query: bool, set_: bool)
    ensures var (t, rc) := DefaultStep(ports, env, s, lPort, vid, query, set_);
            && (rc == RC_OK <==>
                  && lPort in ports && Low16(ports[lPort].pPort) in env.handles
                  && (vid == 0 || vid in s.vlans) && query && set_)
            && (rc != RC_OK ==> rc == RC_FAIL && t == s)
            && (rc == RC_OK ==>
                  var p := Low16(ports[lPort].pPort);
                  && vid in t.vlans && t.vlans[vid].defaultPortId == p
                  && t.vlans[vid].vlanSai == (if vid in s.vlans then s.vlans[vid].vlanSai else NULL_OID)
                  && t.vlans[vid].ports == (if vid in s.vlans then s.vlans[vid].ports else [])
                  && (forall v :: v != vid ==> (v in t.vlans <==> v in s.vlans))
                  && (forall v :: v != vid && v in s.vlans ==> t.vlans[v] == s.vlans[v])
                  && t.pvid == s.pvid[env.handles[p] := vid]
                  && t.tagPorts == s.tagPorts && t.hwVlans == s.hwVlans && t.hwMembers == s.hwMembers)
  {
  }

  /** OK exactly for a known logical port with a granted query; then a member object is untagged if it was, or if it is
      on the port and SAI does not refuse it, the port is marked, and nothing else moves. */
  lemma TagAnswer(ports: PortMap, s: State, lPort: U16, query: bool, refused: set<Oid>)
    requires Inv(s)
    ensures var (t, rc) := TagStep(ports, s, lPort, query, refused);
            && (rc == RC_OK <==> lPort in ports && query)
            && (rc != RC_OK ==> rc == RC_FAIL && t == s)
            && t.vlans == s.vlans && t.hwVlans == s.hwVlans && t.pvid == s.pvid
            && t.hwMembers.Keys == s.hwMembers.Keys
            && (rc == RC_OK ==>
                  var p := ports[lPort].pPort;
                  && t.tagPorts == s.tagPorts + (if p in s.tagPorts then [] else [Low16(p)])
                  && forall o :: o in s.hwMembers ==>
                       var x := s.hwMembers[o];
                       t.hwMembers[o] == x.(untagged := x.untagged || (x.port == p && o !in refused)))
  {
    if lPort in ports && query {
      var p := ports[lPort].pPort;
      var t := TagStep(ports, s, lPort, query, refused).0;
      forall o | o in s.hwMembers
        ensures t.hwMembers[o] == s.hwMembers[o].(
                  untagged := s.hwMembers[o].untagged || (s.hwMembers[o].port == p && o !in refused))
      {
        MembersOnPort(s, p, o);
      }
    }
  }
}
