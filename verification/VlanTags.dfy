/** Tagging does not depend on the order of calls, and batches touch nothing but what they name (esalSaiVlan.cc). */
module VlanTags {
  import opened Sai
  import opened PortMap
  import opened Vlan

  /** A live member is on port p exactly when its record says so. */
  lemma MembersOnPort(s: State, p: U32, o: Oid)
    requires Inv(s) && o in s.hwMembers
    ensures o in MembersOn(s.vlans, p) <==> s.hwMembers[o].port == p
  {
    assert Recorded(s, o);
    var v, m := VidOf(s, s.hwMembers[o].vlanSai), Member(s.hwMembers[o].port, o);
    var k :| 0 <= k < |s.vlans[v].ports| && s.vlans[v].ports[k] == m;
    if o in MembersOn(s.vlans, p) {
      var w, i :| w in s.vlans && 0 <= i < |s.vlans[w].ports| && s.vlans[w].ports[i].portId == p
               && s.vlans[w].ports[i].memberSai == o;
      assert s.vlans[w].ports[i] in s.vlans[w].ports;
    }
  }

  /** Every member on port p whose attribute set is refused is untagged already. */
  ghost predicate RefusedHarmless(s: State, p: U32, refused: set<Oid>) {
    forall o :: o in s.hwMembers && s.hwMembers[o].port == p && o in refused ==> s.hwMembers[o].untagged
  }

  /** Marking a wide port touches no member and marks its narrowed number q: there must be no member on q, and no
      mark. */
  ghost predicate WideHarmless(s: State, q: U16) {
    q !in s.tagPorts && forall o :: o in s.hwMembers ==> s.hwMembers[o].port != q
  }

  /** Marking a port keeps the tagging invariant exactly when no refused member was still tagged; or, for a wide port,
      when its narrowed number is in use nowhere. */
  lemma TagStepTags(ports: PortMap, s: State, lPort: U16, refused: set<Oid>)
    requires Inv(s) && TagInv(s) && lPort in ports
    ensures var p := ports[lPort].pPort;
            TagInv(TagStep(ports, s, lPort, true, refused).0) <==>
              if p < 0x1_0000 then RefusedHarmless(s, p, refused) else WideHarmless(s, Low16(p))
  {
    if ports[lPort].pPort < 0x1_0000 {
      NarrowTagStep(ports, s, lPort, refused);
    } else {
      WideTagStep(ports, s, lPort, refused);
    }
  }

  lemma NarrowTagStep(ports: PortMap, s: State, lPort: U16, refused: set<Oid>)
    requires Inv(s) && TagInv(s) && lPort in ports && ports[lPort].pPort < 0x1_0000
    ensures TagInv(TagStep(ports, s, lPort, true, refused).0) <==> RefusedHarmless(s, ports[lPort].pPort, refused)
  {
    var p := ports[lPort].pPort;
    var t := TagStep(ports, s, lPort, true, refused).0;
    assert forall q :: q in t.tagPorts <==> q in s.tagPorts || q == p;
    forall o | o in s.hwMembers
      ensures t.hwMembers[o].port == s.hwMembers[o].port
      ensures t.hwMembers[o].untagged <==> s.hwMembers[o].untagged || (s.hwMembers[o].port == p && o !in refused)
    {
      MembersOnPort(s, p, o);
    }
  }

  lemma WideTagStep(ports: PortMap, s: State, lPort: U16, refused: set<Oid>)
    requires TagInv(s) && lPort in ports && ports[lPort].pPort >= 0x1_0000
    ensures TagInv(TagStep(ports, s, lPort, true, refused).0) <==> WideHarmless(s, Low16(ports[lPort].pPort))
  {
    var p := ports[lPort].pPort;
    var q := Low16(p);
    var t := TagStep(ports, s, lPort, true, refused).0;
    assert MembersOn(s.vlans, p) == {};
    assert t.hwMembers == s.hwMembers && t.tagPorts == s.tagPorts + [q];
    assert forall x :: x in t.tagPorts <==> x in s.tagPorts || x == q;
    if q in s.tagPorts {
      var k :| 0 <= k < |s.tagPorts| && s.tagPorts[k] == q;
      assert t.tagPorts[k] == t.tagPorts[|s.tagPorts|];
    }
  }

  lemma {:induction false} AddLoopTags(
      ports: PortMap, env: Env, s: State, vid: U16, lPorts: seq<U16>, created: seq<Option<Oid>>)
    requires Narrow(ports) && TagInv(s) && vid in s.vlans
    ensures TagInv(AddLoop(ports, env, s, vid, lPorts, created).0)
    ensures AddLoop(ports, env, s, vid, lPorts, created).0.tagPorts == s.tagPorts
    decreases lPorts
  {
    if lPorts != [] {
      var (s1, more) := AddOne(ports, env, s, vid, lPorts[0], Reply(created, None));
      if more {
        AddLoopTags(ports, env, s1, vid, lPorts[1..], Rest(created));
      }
    }
  }

  lemma {:induction false} RemoveLoopTags(ports: PortMap, s: State, vid: U16, lPorts: seq<U16>, removed: seq<bool>)
    requires TagInv(s) && vid in s.vlans
    ensures TagInv(RemoveLoop(ports, s, vid, lPorts, removed))
    ensures RemoveLoop(ports, s, vid, lPorts, removed).tagPorts == s.tagPorts
    decreases lPorts
  {
    if lPorts != [] {
      var s1 := RemoveOne(ports, s, vid, lPorts[0], Reply(removed, false));
      RemoveLoopTags(ports, s1, vid, lPorts[1..], Rest(removed));
    }
  }

  /** No attribute set is refused. */
  ghost predicate Granted(op: Op) {
    op.Tag? ==> op.refused == {}
  }

  lemma StepTags(ports: PortMap, s: State, op: Op)
    requires Narrow(ports) && Inv(s) && TagInv(s) && Possible(ports, s, op) && Granted(op)
    ensures TagInv(Step(ports, s, op))
  {
    match op
    case Add(env, vid, query, lPorts, members) =>
      if vid in s.vlans && query { AddLoopTags(ports, env, s, vid, lPorts, members); }
    case Remove(vid, query, lPorts, gone) =>
      if vid in s.vlans && query { RemoveLoopTags(ports, s, vid, lPorts, gone); }
    case Tag(lPort, query, refused) =>
      if lPort in ports && query { TagStepTags(ports, s, lPort, refused); }
    case _ =>
  }

  /** After any interleaving of the VLAN calls, a member is untagged exactly when its port has been marked,
      whether it joined before or after the marking. */
  lemma {:induction false} RunTags(ports: PortMap, s: State, ops: seq<Op>)
    requires Narrow(ports) && Inv(s) && TagInv(s) && PossibleRun(ports, s, ops)
    requires forall i :: 0 <= i < |ops| ==> Granted(ops[i])
    ensures TagInv(Run(ports, s, ops))
    decreases ops
  {
    if ops != [] {
      StepInv(ports, s, ops[0]);
      StepTags(ports, s, ops[0]);
      RunTags(ports, Step(ports, s, ops[0]), ops[1..]);
    }
  }

  // Narrow port numbers are exactly what keeps a port from being listed twice.

  /** Adding one port twice, q being its port number narrowed to 16 bits. */
  function Twice(l: U16, q: U16): seq<Op> {
    var env := Env(map[], map[q := 1]);
    [Create(1, true, Some(1)), Add(env, 1, true, [l, l], [Some(1), Some(2)])]
  }

  /** The two turns of the loop: the wide number is not found among the narrowed ones, so both create. */
  lemma WidePortLoop(ports: PortMap, l: U16, s1: State)
    requires l in ports && ports[l].pPort >= 0x1_0000
    requires 1 in s1.vlans && s1.vlans[1].ports == [] && s1.hwMembers == map[]
    ensures var q := Low16(ports[l].pPort);
            var env := Env(map[], map[q := 1]);
            var t := AddLoop(ports, env, s1, 1, [l, l], [Some(1), Some(2)]).0;
            && FreshMembers(ports, env, s1, 1, [l, l], [Some(1), Some(2)])
            && 1 in t.vlans && t.vlans[1].ports == [Member(q, 1), Member(q, 2)]
  {
    var p, q := ports[l].pPort, Low16(ports[l].pPort);
    var env := Env(map[], map[q := 1]);
    var s2 := Joined(s1, 1, p, 1, 1);
    var s3 := Joined(s2, 1, p, 1, 2);
    assert s2.vlans[1].ports == [Member(q, 1)];
    assert AddOne(ports, env, s1, 1, l, Some(1)) == (s2, true);
    assert AddOne(ports, env, s2, 1, l, Some(2)) == (s3, true);
    assert [l, l][1..] == [l] && [Some(1), Some(2)][1..] == [Some(2)] && [l][1..] == [] && [Some(2)][1..] == [];
    assert AddLoop(ports, env, s2, 1, [l], [Some(2)]) == AddLoop(ports, env, s3, 1, [], []) == (s3, RC_OK);
    assert FreshMembers(ports, env, s2, 1, [l], [Some(2)]);
  }

  lemma WidePortTwice(ports: PortMap, l: U16)
    requires l in ports && ports[l].pPort >= 0x1_0000
    ensures var ops := Twice(l, Low16(ports[l].pPort));
            PossibleRun(ports, EMPTY, ops) && !DistinctOk(Run(ports, EMPTY, ops))
  {
    var q := Low16(ports[l].pPort);
    var ops := Twice(l, q);
    var s1 := Step(ports, EMPTY, ops[0]);
    WidePortLoop(ports, l, s1);
    var s2 := Step(ports, s1, ops[1]);
    assert ops[1..][1..] == [];
    assert Run(ports, s1, ops[1..]) == Run(ports, s2, []) == s2;
    assert PossibleRun(ports, s1, ops[1..]);
    assert s2.vlans[1].ports[0].portId == s2.vlans[1].ports[1].portId;
  }

  /** No run ever lists a port twice in a VLAN if and only if every physical port number in the configuration
      fits 16 bits. */
  lemma DistinctIffNarrow(ports: PortMap)
    ensures Narrow(ports) <==>
            forall ops :: PossibleRun(ports, EMPTY, ops) ==> DistinctOk(Run(ports, EMPTY, ops))
  {
    if Narrow(ports) {
      forall ops | PossibleRun(ports, EMPTY, ops) ensures DistinctOk(Run(ports, EMPTY, ops)) {
        RunDistinct(ports, EMPTY, ops);
      }
    } else {
      var l: U16 :| l in ports && ports[l].pPort >= 0x1_0000;
      WidePortTwice(ports, l);
    }
  }

  /** Tagging the same wide port twice marks its narrowed number twice. */
  lemma WidePortMarkedTwice(ports: PortMap, l: U16)
    requires l in ports && ports[l].pPort >= 0x1_0000
    ensures var ops := [Tag(l, true, {}), Tag(l, true, {})];
            GrantedRun(ports, ops) && !MarkedOnce(Run(ports, EMPTY, ops))
  {
    var op := Tag(l, true, {});
    var q := Low16(ports[l].pPort);
    var s1 := Step(ports, EMPTY, op);
    var s2 := Step(ports, s1, op);
    assert s1.tagPorts == [q] && s2.tagPorts == [q, q];
    assert [op, op][1..] == [op] && [op][1..] == [];
    assert Run(ports, s1, [op]) == Run(ports, s2, []) == s2;
    assert PossibleRun(ports, s1, [op]) && PossibleRun(ports, s2, []);
    assert s2.tagPorts[0] == s2.tagPorts[1];
  }

  /** A wide port joins a VLAN and is tagged afterwards, q being its port number narrowed to 16 bits. */
  function JoinThenTag(l: U16, q: U16): seq<Op> {
    [Create(1, true, Some(1)), Add(Env(map[], map[q := 1]), 1, true, [l], [Some(1)]), Tag(l, true, {})]
  }

  lemma WidePortJoins(ports: PortMap, l: U16, s1: State)
    requires l in ports && ports[l].pPort >= 0x1_0000
    requires 1 in s1.vlans && s1.vlans[1].ports == [] && s1.hwMembers == map[]
    ensures var q := Low16(ports[l].pPort);
            var env := Env(map[], map[q := 1]);
            && FreshMembers(ports, env, s1, 1, [l], [Some(1)])
            && AddLoop(ports, env, s1, 1, [l], [Some(1)]).0 == Joined(s1, 1, ports[l].pPort, 1, 1)
  {
    var q := Low16(ports[l].pPort);
    var env := Env(map[], map[q := 1]);
    var s2 := Joined(s1, 1, ports[l].pPort, 1, 1);
    assert AddOne(ports, env, s1, 1, l, Some(1)) == (s2, true);
    assert [l][1..] == [] && [Some(1)][1..] == [];
    assert AddLoop(ports, env, s2, 1, [], []) == (s2, RC_OK);
    assert FreshMembers(ports, env, s2, 1, [], []);
  }

  /** The marking looks for the wide number among the narrowed ones, so the member stays tagged on a marked port. */
  lemma WidePortStaysTagged(ports: PortMap, l: U16)
    requires l in ports && ports[l].pPort >= 0x1_0000
    ensures var ops := JoinThenTag(l, Low16(ports[l].pPort));
            GrantedRun(ports, ops) && !UntaggedIffMarked(Run(ports, EMPTY, ops))
  {
    var q := Low16(ports[l].pPort);
    var ops := JoinThenTag(l, q);
    var s1 := Step(ports, EMPTY, ops[0]);
    WidePortJoins(ports, l, s1);
    var s2 := Step(ports, s1, ops[1]);
    var s3 := Step(ports, s2, ops[2]);
    assert ops[1..][1..] == ops[2..] && ops[2..][1..] == [];
    assert Run(ports, s2, ops[2..]) == Run(ports, s3, []) == s3;
    assert Run(ports, s1, ops[1..]) == s3;
    assert PossibleRun(ports, s3, []) && PossibleRun(ports, s2, ops[2..]) && PossibleRun(ports, s1, ops[1..]);
    assert s2.vlans[1].ports == [Member(q, 1)] && s2.tagPorts == [];
    assert MembersOn(s2.vlans, ports[l].pPort) == {};
    assert s3.tagPorts == [q] && s3.hwMembers[1].port == q && !s3.hwMembers[1].untagged;
  }

  /** A run in which no attribute set is refused. */
  ghost predicate GrantedRun(ports: PortMap, ops: seq<Op>) {
    PossibleRun(ports, EMPTY, ops) && forall i :: 0 <= i < |ops| ==> Granted(ops[i])
  }

  /** Tagging is order independent over every run if and only if every physical port number fits 16 bits; and so is
      marking each port once. */
  lemma TagsIffNarrow(ports: PortMap)
    ensures Narrow(ports) <==> forall ops :: GrantedRun(ports, ops) ==> UntaggedIffMarked(Run(ports, EMPTY, ops))
    ensures Narrow(ports) <==> forall ops :: GrantedRun(ports, ops) ==> MarkedOnce(Run(ports, EMPTY, ops))
  {
    if Narrow(ports) {
      forall ops | GrantedRun(ports, ops) ensures TagInv(Run(ports, EMPTY, ops)) {
        RunTags(ports, EMPTY, ops);
      }
    } else {
      var l: U16 :| l in ports && ports[l].pPort >= 0x1_0000;
      WidePortStaysTagged(ports, l);
      WidePortMarkedTwice(ports, l);
    }
  }

  // Batches.

  function Ids(ports: seq<Member>): (ids: seq<U16>)
    ensures |ids| == |ports| && forall i :: 0 <= i < |ids| ==> ids[i] == ports[i].portId
  {
    seq(|ports|, i requires 0 <= i < |ports| => ports[i].portId)
  }

  /** What a batch may touch: the member list of one VLAN, and the member objects. */
  ghost predicate OnlyMembers(s: State, t: State, vid: U16) {
    && t.vlans.Keys == s.vlans.Keys && vid in s.vlans
    && (forall v :: v in s.vlans && v != vid ==> t.vlans[v] == s.vlans[v])
    && t.vlans[vid] == s.vlans[vid].(ports := t.vlans[vid].ports)
    && t.tagPorts == s.tagPorts && t.hwVlans == s.hwVlans && t.pvid == s.pvid
  }

  /** The member objects a batch may touch are those of one VLAN: an object that goes or comes is that VLAN's, and one
      that stays is as it was, tagging included. */
  ghost predicate OwnObjects(s: State, t: State, vid: U16)
    requires vid in s.vlans
  {
    && (forall o :: o in s.hwMembers && o in t.hwMembers ==> t.hwMembers[o] == s.hwMembers[o])
    && (forall o :: o in s.hwMembers && o !in t.hwMembers ==> s.hwMembers[o].vlanSai == s.vlans[vid].vlanSai)
    && (forall o :: o in t.hwMembers && o !in s.hwMembers ==> t.hwMembers[o].vlanSai == s.vlans[vid].vlanSai)
  }

  /** The ids a batch of additions leaves when nothing is refused: new ports are appended in order of first
      mention, ports already listed and unknown logical ports are skipped. */
  function AddedIds(ports: PortMap, ids: seq<U16>, lPorts: seq<U16>): seq<U16>
    decreases lPorts
  {
    if lPorts == [] then ids
    else if lPorts[0] !in ports || ports[lPorts[0]].pPort in ids then AddedIds(ports, ids, lPorts[1..])
    else AddedIds(ports, ids + [Low16(ports[lPorts[0]].pPort)], lPorts[1..])
  }

  /** Port id p is what some logical port of the batch stands for. */
  ghost predicate NamedBy(ports: PortMap, lPorts: seq<U16>, p: U16) {
    exists l :: l in lPorts && l in ports && Low16(ports[l].pPort) == p
  }

  /** `after` continues `before` with ports the batch names. */
  ghost predicate Extends(ports: PortMap, before: seq<Member>, after: seq<Member>, lPorts: seq<U16>) {
    before <= after && forall i :: |before| <= i < |after| ==> NamedBy(ports, lPorts, after[i].portId)
  }

  lemma NamedByMore(ports: PortMap, lPorts: seq<U16>, p: U16)
    requires lPorts != [] && NamedBy(ports, lPorts[1..], p)
    ensures NamedBy(ports, lPorts, p)
  {
    var l :| l in lPorts[1..] && l in ports && Low16(ports[l].pPort) == p;
    assert l in lPorts;
  }

  lemma ExtendsTwice(ports: PortMap, a: seq<Member>, b: seq<Member>, c: seq<Member>, lPorts: seq<U16>)
    requires lPorts != [] && Extends(ports, a, b, [lPorts[0]]) && Extends(ports, b, c, lPorts[1..])
    ensures Extends(ports, a, c, lPorts)
  {
    forall i | |a| <= i < |c| ensures NamedBy(ports, lPorts, c[i].portId) {
      if i < |b| {
        assert c[i] == b[i] && NamedBy(ports, [lPorts[0]], b[i].portId);
        assert lPorts[0] in lPorts;
      } else {
        NamedByMore(ports, lPorts, c[i].portId);
      }
    }
  }

  lemma AddOneFrame(ports: PortMap, env: Env, s: State, vid: U16, lPort: U16, created: Option<Oid>)
    requires vid in s.vlans
    ensures var t := AddOne(ports, env, s, vid, lPort, created).0;
            OnlyMembers(s, t, vid) && Extends(ports, s.vlans[vid].ports, t.vlans[vid].ports, [lPort])
  {
    assert lPort in [lPort];
  }

  /** A batch of additions changes one VLAN's list only, and only by appending ports the batch names, whatever
      is refused on the way. */
  lemma {:induction false} AddLoopFrame(
      ports: PortMap, env: Env, s: State, vid: U16, lPorts: seq<U16>, created: seq<Option<Oid>>)
    requires vid in s.vlans
    ensures var t := AddLoop(ports, env, s, vid, lPorts, created).0;
            OnlyMembers(s, t, vid) && Extends(ports, s.vlans[vid].ports, t.vlans[vid].ports, lPorts)
    decreases lPorts
  {
    if lPorts != [] {
      var l, r := lPorts[0], Reply(created, None);
      var (s1, more) := AddOne(ports, env, s, vid, l, r);
      AddOneFrame(ports, env, s, vid, l, r);
      var t := AddLoop(ports, env, s, vid, lPorts, created).0;
      if more {
        AddLoopFrame(ports, env, s1, vid, lPorts[1..], Rest(created));
      }
      ExtendsTwice(ports, s.vlans[vid].ports, s1.vlans[vid].ports, t.vlans[vid].ports, lPorts);
    }
  }

  /** With new handles, additions keep every member object there was and add objects of their own VLAN only. */
  lemma {:induction false} AddLoopObjects(
      ports: PortMap, env: Env, s: State, vid: U16, lPorts: seq<U16>, created: seq<Option<Oid>>)
    requires vid in s.vlans && FreshMembers(ports, env, s, vid, lPorts, created)
    ensures var t := AddLoop(ports, env, s, vid, lPorts, created).0;
            OwnObjects(s, t, vid) && s.hwMembers.Keys <= t.hwMembers.Keys
    decreases lPorts
  {
    if lPorts != [] {
      var (s1, more) := AddOne(ports, env, s, vid, lPorts[0], Reply(created, None));
      if more {
        AddLoopObjects(ports, env, s1, vid, lPorts[1..], Rest(created));
      }
    }
  }

  /** With every creation granted and every bridge port present, the batch succeeds and the ids are exactly
      those of the specification. */
  lemma {:induction false} AddLoopIds(
      ports: PortMap, env: Env, s: State, vid: U16, lPorts: seq<U16>, created: seq<Option<Oid>>)
    requires vid in s.vlans
    requires forall l :: l in lPorts && l in ports ==> ports[l].pPort < 0x1_0000 && Low16(ports[l].pPort) in env.bridge
    requires |created| >= |lPorts| && forall i :: 0 <= i < |created| ==> created[i].Some?
    ensures var (t, rc) := AddLoop(ports, env, s, vid, lPorts, created);
            rc == RC_OK && vid in t.vlans && Ids(t.vlans[vid].ports) == AddedIds(ports, Ids(s.vlans[vid].ports), lPorts)
    decreases lPorts
  {
    if lPorts != [] {
      var l := lPorts[0];
      var (s1, more) := AddOne(ports, env, s, vid, l, created[0]);
      assert l in lPorts;
      if l in ports {
        var p := ports[l].pPort;
        var before := s.vlans[vid].ports;
        assert p in Ids(before) <==> IndexOf(before, p) < |before| by {
          if p in Ids(before) {
            var k :| 0 <= k < |before| && Ids(before)[k] == p;
          }
          if IndexOf(before, p) < |before| {
            assert Ids(before)[IndexOf(before, p)] == p;
          }
        }
        if p !in Ids(before) {
          assert Ids(s1.vlans[vid].ports) == Ids(before) + [Low16(p)];
        }
      }
      AddLoopIds(ports, env, s1, vid, lPorts[1..], created[1..]);
    }
  }

  /** The members whose port is not in `gone`, in their order. */
  function Kept(ms: seq<Member>, gone: set<nat>): seq<Member> {
    if ms == [] then []
    else (if ms[0].portId in gone then [] else [ms[0]]) + Kept(ms[1..], gone)
  }

  lemma {:induction false} KeptSplit(a: seq<Member>, b: seq<Member>, gone: set<nat>)
    ensures Kept(a + b, gone) == Kept(a, gone) + Kept(b, gone)
  {
    if a == [] {
      assert a + b == b;
    } else {
      assert (a + b)[1..] == a[1..] + b;
      KeptSplit(a[1..], b, gone);
    }
  }

  lemma KeptFirst(m: Member, back: seq<Member>, gone: set<nat>)
    requires m.portId in gone
    ensures Kept([m] + back, gone) == Kept(back, gone)
  {
    assert ([m] + back)[1..] == back;
  }

  /** Taking out a member whose port is in `gone` leaves the others alone. */
  lemma KeptWithout(ms: seq<Member>, i: nat, gone: set<nat>)
    requires i < |ms| && ms[i].portId in gone
    ensures Kept(Without(ms, i), gone) == Kept(ms, gone)
  {
    KeptFirst(ms[i], ms[i + 1..], gone);
    KeptSplit(ms[..i], [ms[i]] + ms[i + 1..], gone);
    KeptSplit(ms[..i], ms[i + 1..], gone);
    assert ms == ms[..i] + ([ms[i]] + ms[i + 1..]);
  }

  /** The physical ports that a batch names and whose removal is granted at least once. */
  function Dropped(ports: PortMap, lPorts: seq<U16>, removed: seq<bool>): set<nat>
    decreases lPorts
  {
    if lPorts == [] then {}
    else
      (if Reply(removed, false) && lPorts[0] in ports then {ports[lPorts[0]].pPort} else {})
      + Dropped(ports, lPorts[1..], Rest(removed))
  }

  lemma {:induction false} DroppedIs(ports: PortMap, lPorts: seq<U16>, removed: seq<bool>, p: nat)
    ensures p in Dropped(ports, lPorts, removed) <==>
            exists j ::
              && 0 <= j < |lPorts| && j < |removed| && removed[j]
              && lPorts[j] in ports && ports[lPorts[j]].pPort == p
    decreases lPorts
  {
    if lPorts != [] {
      var ls, rs := lPorts[1..], Rest(removed);
      DroppedIs(ports, ls, rs, p);
      if j :| 0 <= j < |ls| && j < |rs| && rs[j] && ls[j] in ports && ports[ls[j]].pPort == p {
        assert removed[j + 1] && lPorts[j + 1] == ls[j];
      }
      if j :| 0 <= j < |lPorts| && j < |removed| && removed[j] && lPorts[j] in ports && ports[lPorts[j]].pPort == p {
        assert j > 0 ==> rs[j - 1] && ls[j - 1] == lPorts[j];
      }
    }
  }

  function Named(ports: PortMap, lPorts: seq<U16>): set<nat> {
    set l | l in lPorts && l in ports :: ports[l].pPort
  }

  lemma DroppedNamed(ports: PortMap, lPorts: seq<U16>, removed: seq<bool>)
    ensures Dropped(ports, lPorts, removed) <= Named(ports, lPorts)
    ensures |removed| >= |lPorts| && (forall i :: 0 <= i < |removed| ==> removed[i]) ==>
              Dropped(ports, lPorts, removed) == Named(ports, lPorts)
  {
    forall p: nat
      ensures p in Dropped(ports, lPorts, removed) ==> p in Named(ports, lPorts)
      ensures |removed| >= |lPorts| && (forall i :: 0 <= i < |removed| ==> removed[i]) && p in Named(ports, lPorts) ==>
                p in Dropped(ports, lPorts, removed)
    {
      DroppedIs(ports, lPorts, removed, p);
      if p in Named(ports, lPorts) {
        var l :| l in lPorts && l in ports && ports[l].pPort == p;
        var j :| 0 <= j < |lPorts| && lPorts[j] == l;
      }
    }
  }

  lemma RemoveOneKeeps(ports: PortMap, s: State, vid: U16, lPort: U16, removed: bool, gone: set<nat>)
    requires vid in s.vlans && (removed && lPort in ports ==> ports[lPort].pPort in gone)
    ensures var t := RemoveOne(ports, s, vid, lPort, removed);
            OnlyMembers(s, t, vid) && Kept(t.vlans[vid].ports, gone) == Kept(s.vlans[vid].ports, gone)
  {
    var t := RemoveOne(ports, s, vid, lPort, removed);
    if t != s {
      KeptWithout(s.vlans[vid].ports, IndexOf(s.vlans[vid].ports, ports[lPort].pPort), gone);
    }
  }

  lemma {:induction false} RemoveLoopKeeps(
      ports: PortMap, s: State, vid: U16, lPorts: seq<U16>, removed: seq<bool>, gone: set<nat>)
    requires vid in s.vlans && Dropped(ports, lPorts, removed) <= gone
    ensures var t := RemoveLoop(ports, s, vid, lPorts, removed);
            OnlyMembers(s, t, vid) && Kept(t.vlans[vid].ports, gone) == Kept(s.vlans[vid].ports, gone)
    decreases lPorts
  {
    if lPorts != [] {
      var r := Reply(removed, false);
      RemoveOneKeeps(ports, s, vid, lPorts[0], r, gone);
      RemoveLoopKeeps(ports, RemoveOne(ports, s, vid, lPorts[0], r), vid, lPorts[1..], Rest(removed), gone);
    }
  }

  /** A batch of removals, whatever is refused, changes one VLAN's list only; and in that list every member whose port
      the batch does not name, or whose removal is refused each time, stays where it was among the others. */
  lemma RemoveLoopFrame(ports: PortMap, s: State, vid: U16, lPorts: seq<U16>, removed: seq<bool>)
    requires vid in s.vlans
    ensures var t := RemoveLoop(ports, s, vid, lPorts, removed);
            var gone, named := Dropped(ports, lPorts, removed), Named(ports, lPorts);
            && OnlyMembers(s, t, vid) && gone <= named
            && Kept(t.vlans[vid].ports, gone) == Kept(s.vlans[vid].ports, gone)
            && Kept(t.vlans[vid].ports, named) == Kept(s.vlans[vid].ports, named)
  {
    DroppedNamed(ports, lPorts, removed);
    RemoveLoopKeeps(ports, s, vid, lPorts, removed, Dropped(ports, lPorts, removed));
    RemoveLoopKeeps(ports, s, vid, lPorts, removed, Named(ports, lPorts));
  }

  /** Under the invariant, removals take objects of their own VLAN only and change no other. */
  lemma {:induction false} RemoveLoopObjects(ports: PortMap, s: State, vid: U16, lPorts: seq<U16>, removed: seq<bool>)
    requires vid in s.vlans && Inv(s)
    ensures var t := RemoveLoop(ports, s, vid, lPorts, removed);
            OwnObjects(s, t, vid) && t.hwMembers.Keys <= s.hwMembers.Keys
    decreases lPorts
  {
    if lPorts != [] {
      var s1 := RemoveOne(ports, s, vid, lPorts[0], Reply(removed, false));
      RemoveOneObjects(ports, s, vid, lPorts[0], Reply(removed, false));
      RemoveLoopObjects(ports, s1, vid, lPorts[1..], Rest(removed));
    }
  }

  lemma RemoveOneObjects(ports: PortMap, s: State, vid: U16, lPort: U16, removed: bool)
    requires vid in s.vlans && Inv(s)
    ensures var t := RemoveOne(ports, s, vid, lPort, removed);
            && Inv(t) && vid in t.vlans && t.vlans[vid].vlanSai == s.vlans[vid].vlanSai
            && OwnObjects(s, t, vid) && t.hwMembers.Keys <= s.hwMembers.Keys
  {
    var t := RemoveOne(ports, s, vid, lPort, removed);
    if t != s {
      var i := IndexOf(s.vlans[vid].ports, ports[lPort].pPort);
      PartedInv(s, vid, i);
      assert s.vlans[vid].ports[i] in s.vlans[vid].ports;
    }
  }

  /** For each port the first so many of its members go, as many as `gone` says; the others keep their order. */
  function Cut(ms: seq<Member>, gone: multiset<nat>): seq<Member> {
    if ms == [] then []
    else
      var p: nat := ms[0].portId;
      if gone[p] > 0 then Cut(ms[1..], gone - multiset{p}) else [ms[0]] + Cut(ms[1..], gone)
  }

  lemma {:induction false} CutNone(ms: seq<Member>)
    ensures Cut(ms, multiset{}) == ms
  {
    if ms != [] { CutNone(ms[1..]); }
  }

  lemma {:induction false} CutTwice(ms: seq<Member>, a: multiset<nat>, b: multiset<nat>)
    ensures Cut(Cut(ms, a), b) == Cut(ms, a + b)
  {
    if ms != [] {
      var p: nat := ms[0].portId;
      if a[p] > 0 {
        CutTwice(ms[1..], a - multiset{p}, b);
        assert (a - multiset{p}) + b == (a + b) - multiset{p};
      } else {
        var rest := Cut(ms[1..], a);
        assert ([ms[0]] + rest)[1..] == rest;
        if b[p] > 0 {
          CutTwice(ms[1..], a, b - multiset{p});
          assert a + (b - multiset{p}) == (a + b) - multiset{p};
        } else {
          CutTwice(ms[1..], a, b);
        }
      }
    }
  }

  lemma IndexOfTail(ms: seq<Member>, p: nat)
    requires ms != [] && ms[0].portId != p
    ensures IndexOf(ms, p) == IndexOf(ms[1..], p) + 1
  {
    var k := IndexOf(ms[1..], p);
    assert forall j :: 0 <= j < k ==> ms[j + 1] == ms[1..][j];
    assert k < |ms| - 1 ==> ms[k + 1] == ms[1..][k];
  }

  lemma WithoutTail(ms: seq<Member>, k: nat)
    requires k + 1 < |ms|
    ensures Without(ms, k + 1) == [ms[0]] + Without(ms[1..], k)
  {
  }

  lemma {:induction false} CutOne(ms: seq<Member>, p: nat)
    ensures var i := IndexOf(ms, p);
            Cut(ms, multiset{p}) == if i < |ms| then Without(ms, i) else ms
  {
    if ms == [] {
    } else if ms[0].portId == p {
      CutNone(ms[1..]);
      assert multiset{p} - multiset{p} == multiset{};
      assert IndexOf(ms, p) == 0 && Without(ms, 0) == ms[1..];
    } else {
      CutOne(ms[1..], p);
      IndexOfTail(ms, p);
      var k := IndexOf(ms[1..], p);
      if k + 1 < |ms| { WithoutTail(ms, k); }
    }
  }

  function Copies(ms: seq<Member>, p: nat): nat {
    if ms == [] then 0 else (if ms[0].portId == p then 1 else 0) + Copies(ms[1..], p)
  }

  lemma {:induction false} CutCopies(ms: seq<Member>, gone: multiset<nat>, p: nat)
    ensures Copies(Cut(ms, gone), p) == if Copies(ms, p) > gone[p] then Copies(ms, p) - gone[p] else 0
  {
    if ms != [] {
      var q: nat := ms[0].portId;
      CutCopies(ms[1..], if gone[q] > 0 then gone - multiset{q} else gone, p);
      if gone[q] == 0 {
        assert ([ms[0]] + Cut(ms[1..], gone))[1..] == Cut(ms[1..], gone);
      }
    }
  }

  lemma {:induction false} KeptSame(ms: seq<Member>, a: set<nat>, b: set<nat>)
    requires forall i :: 0 <= i < |ms| ==> (ms[i].portId in a <==> ms[i].portId in b)
    ensures Kept(ms, a) == Kept(ms, b)
  {
    if ms != [] { KeptSame(ms[1..], a, b); }
  }

  function PortsOf(gone: multiset<nat>): set<nat> {
    set p | p in gone
  }

  /** Without double ports, once is enough. */
  lemma {:induction false} CutDistinct(ms: seq<Member>, gone: multiset<nat>)
    requires Distinct(ms)
    ensures Cut(ms, gone) == Kept(ms, PortsOf(gone))
  {
    if ms != [] {
      var q: nat := ms[0].portId;
      var tail, less := ms[1..], gone - multiset{q};
      assert forall i :: 0 <= i < |tail| ==> tail[i] == ms[i + 1] && tail[i].portId != q;
      if gone[q] > 0 {
        CutDistinct(tail, less);
        KeptSame(tail, PortsOf(less), PortsOf(gone));
      } else {
        CutDistinct(tail, gone);
      }
    }
  }

  /** How often the batch names each physical port with the removal granted. */
  function Grants(ports: PortMap, lPorts: seq<U16>, removed: seq<bool>): multiset<nat>
    decreases lPorts
  {
    if lPorts == [] then multiset{}
    else
      (if Reply(removed, false) && lPorts[0] in ports then multiset{ports[lPorts[0]].pPort as nat} else multiset{})
      + Grants(ports, lPorts[1..], Rest(removed))
  }

  lemma {:induction false} GrantsDropped(ports: PortMap, lPorts: seq<U16>, removed: seq<bool>)
    ensures Dropped(ports, lPorts, removed) == PortsOf(Grants(ports, lPorts, removed))
    decreases lPorts
  {
    if lPorts != [] { GrantsDropped(ports, lPorts[1..], Rest(removed)); }
  }

  lemma {:induction false} RemoveLoopCut(ports: PortMap, s: State, vid: U16, lPorts: seq<U16>, removed: seq<bool>)
    requires vid in s.vlans
    ensures var t := RemoveLoop(ports, s, vid, lPorts, removed);
            vid in t.vlans && t.vlans[vid].ports == Cut(s.vlans[vid].ports, Grants(ports, lPorts, removed))
    decreases lPorts
  {
    var ms := s.vlans[vid].ports;
    if lPorts == [] {
      CutNone(ms);
    } else {
      var r, rest := Reply(removed, false), Grants(ports, lPorts[1..], Rest(removed));
      RemoveLoopCut(ports, RemoveOne(ports, s, vid, lPorts[0], r), vid, lPorts[1..], Rest(removed));
      if r && lPorts[0] in ports {
        var p: nat := ports[lPorts[0]].pPort;
        CutOne(ms, p);
        CutTwice(ms, multiset{p}, rest);
      } else {
        assert multiset{} + rest == rest;
      }
    }
  }

  /** What a batch of removals leaves of any list, whatever is refused: for each port as many of its members go, from
      the front, as the batch is granted for it, and the others keep their order. Of a list without double ports, the
      members whose port is not both named and granted are left. */
  lemma RemoveLoopExact(ports: PortMap, s: State, vid: U16, lPorts: seq<U16>, removed: seq<bool>)
    requires vid in s.vlans
    ensures var t := RemoveLoop(ports, s, vid, lPorts, removed);
            var before := s.vlans[vid].ports;
            && vid in t.vlans && t.vlans[vid].ports == Cut(before, Grants(ports, lPorts, removed))
            && (Distinct(before) ==> t.vlans[vid].ports == Kept(before, Dropped(ports, lPorts, removed)))
  {
    RemoveLoopCut(ports, s, vid, lPorts, removed);
    GrantsDropped(ports, lPorts, removed);
    if Distinct(s.vlans[vid].ports) {
      CutDistinct(s.vlans[vid].ports, Grants(ports, lPorts, removed));
    }
  }

  /** How often the batch names each physical port. */
  function Mentions(ports: PortMap, lPorts: seq<U16>): multiset<nat> {
    if lPorts == [] then multiset{}
    else
      (if lPorts[0] in ports then multiset{ports[lPorts[0]].pPort as nat} else multiset{})
      + Mentions(ports, lPorts[1..])
  }

  lemma {:induction false} GrantsAll(ports: PortMap, lPorts: seq<U16>, removed: seq<bool>)
    requires |removed| >= |lPorts| && forall i :: 0 <= i < |removed| ==> removed[i]
    ensures Grants(ports, lPorts, removed) == Mentions(ports, lPorts)
    decreases lPorts
  {
    if lPorts != [] { GrantsAll(ports, lPorts[1..], Rest(removed)); }
  }

  /** With nothing refused a port loses as many members as the batch names it; of a list without double ports exactly
      the named ports go. */
  lemma RemoveLoopIds(ports: PortMap, s: State, vid: U16, lPorts: seq<U16>, removed: seq<bool>)
    requires vid in s.vlans
    requires |removed| >= |lPorts| && forall i :: 0 <= i < |removed| ==> removed[i]
    ensures var t := RemoveLoop(ports, s, vid, lPorts, removed);
            var before := s.vlans[vid].ports;
            && vid in t.vlans && t.vlans[vid].ports == Cut(before, Mentions(ports, lPorts))
            && (Distinct(before) ==> t.vlans[vid].ports == Kept(before, Named(ports, lPorts)))
  {
    RemoveLoopExact(ports, s, vid, lPorts, removed);
    GrantsAll(ports, lPorts, removed);
    DroppedNamed(ports, lPorts, removed);
  }
}
