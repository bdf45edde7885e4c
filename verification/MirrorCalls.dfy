/** Runs of the replicator's entry points on logical ports, and what an OK from VendorSetPortEgress is worth
    (esalSaiMc.cc). */
module MirrorCalls {
  import opened Sai
  import opened PortMap
  import opened PortTable
  import opened Mirror

  /** One destination of VendorSetPortEgress, with what SAI answers if it is mirrored. */
  datatype Leg = Leg(dst: U16, reply: Reply)

  datatype Call =
    | MirrorPort(src: U16, dst: U16, reply: Reply)
    | RemoveMirrorPort(src: U16, dst: U16, reply: Reply)
    | SetPortEgress(lPort: U16, legs: seq<Leg>)
    | NewPort(portSai: Oid)

  function Dsts(legs: seq<Leg>): (dsts: seq<U16>)
    ensures |dsts| == |legs|
  {
    seq(|legs|, i requires 0 <= i < |legs| => legs[i].dst)
  }

  function Replies(legs: seq<Leg>): (rs: seq<Reply>)
    ensures |rs| == |legs|
  {
    seq(|legs|, i requires 0 <= i < |legs| => legs[i].reply)
  }

  function Phys(ports: PortMap, l: U16): U16
    requires l in ports
  {
    Low16(ports[l].pPort)
  }

  function Made(ports: PortMap, s: State, c: Call): State {
    match c
    case MirrorPort(src, dst, r) => MirrorCall(s, ports, src, dst, r).0
    case RemoveMirrorPort(src, dst, r) =>
      if src !in ports || dst !in ports then s else UnmirrorStep(s, Phys(ports, src), Phys(ports, dst), r).0
    case SetPortEgress(l, legs) =>
      if l !in ports then s else EgressCalls(s, ports, Phys(ports, l), Dsts(legs), Replies(legs)).0
    case NewPort(portSai) => s.(handles := AddHandle(s.handles, portSai))
  }

  /** The state after these calls, from a fresh process. */
  function After(ports: PortMap, calls: seq<Call>): State
    decreases |calls|
  {
    if calls == [] then EMPTY
    else Made(ports, After(ports, calls[..|calls| - 1]), calls[|calls| - 1])
  }

  /** Each session handle granted during the loop is new at that moment. */
  ghost predicate FreshLegs(s: State, ports: PortMap, p: U16, dsts: seq<U16>, rs: seq<Reply>)
    requires |rs| == |dsts|
    decreases dsts
  {
    dsts != [] ==>
      && Fresh(s, rs[0])
      && FreshLegs(EgressTurn(s, ports, p, dsts[0], rs[0]).0, ports, p, dsts[1..], rs[1..])
  }

  /** One turn of the loop. */
  function EgressTurn(s: State, ports: PortMap, p: U16, d: U16, r: Reply): (State, int) {
    if d in s.rows && p in s.rows[d].portsIn then (s, RC_OK) else MirrorCall(s, ports, p, d, r)
  }

  ghost predicate FreshCall(ports: PortMap, s: State, c: Call) {
    match c
    case MirrorPort(_, _, r) => Fresh(s, r)
    case SetPortEgress(l, legs) => l in ports ==> FreshLegs(s, ports, Phys(ports, l), Dsts(legs), Replies(legs))
    case _ => true
  }

  ghost predicate PossibleCalls(ports: PortMap, calls: seq<Call>)
    decreases |calls|
  {
    calls != [] ==>
      var before := calls[..|calls| - 1];
      PossibleCalls(ports, before) && FreshCall(ports, After(ports, before), calls[|calls| - 1])
  }

  // Agreement over runs of calls.

  lemma MirrorCallInv(s: State, ports: PortMap, srcL: U16, dstL: U16, r: Reply)
    requires Inv(s) && Fresh(s, r)
    ensures Inv(MirrorCall(s, ports, srcL, dstL, r).0)
  {
    if srcL in ports && dstL in ports {
      MirrorInv(s, Phys(ports, srcL), Phys(ports, dstL), r);
    }
  }

  lemma {:induction false} EgressInv(s: State, ports: PortMap, p: U16, dsts: seq<U16>, rs: seq<Reply>)
    requires |rs| == |dsts| && Inv(s) && FreshLegs(s, ports, p, dsts, rs)
    ensures Inv(EgressCalls(s, ports, p, dsts, rs).0)
    decreases dsts
  {
    if dsts != [] {
      MirrorCallInv(s, ports, p, dsts[0], rs[0]);
      EgressInv(EgressTurn(s, ports, p, dsts[0], rs[0]).0, ports, p, dsts[1..], rs[1..]);
    }
  }

  lemma MadeInv(ports: PortMap, s: State, c: Call)
    requires Inv(s) && FreshCall(ports, s, c)
    ensures Inv(Made(ports, s, c))
  {
    match c
    case MirrorPort(src, dst, r) => MirrorCallInv(s, ports, src, dst, r);
    case RemoveMirrorPort(src, dst, r) =>
      if src in ports && dst in ports { UnmirrorInv(s, Phys(ports, src), Phys(ports, dst), r); }
    case SetPortEgress(l, legs) =>
      if l in ports { EgressInv(s, ports, Phys(ports, l), Dsts(legs), Replies(legs)); }
    case NewPort(portSai) => AddPortInv(s, portSai);
  }

  /** After every run of the entry points, whatever SAI refused, rows, sessions and port lists agree. */
  lemma {:induction false} CallsAgree(ports: PortMap, calls: seq<Call>)
    requires PossibleCalls(ports, calls)
    ensures Inv(After(ports, calls))
    decreases |calls|
  {
    if calls != [] {
      var before := calls[..|calls| - 1];
      CallsAgree(ports, before);
      MadeInv(ports, After(ports, before), calls[|calls| - 1]);
    }
  }

  // Rows stand for known ports only.

  ghost predicate IsPhysical(ports: PortMap, p: U16) {
    exists l: U16 :: l in ports && Phys(ports, l) == p
  }

  /** Every row's number is some logical port's physical port. */
  ghost predicate InImage(ports: PortMap, s: State) {
    forall d :: d in s.rows ==> IsPhysical(ports, d)
  }

  lemma {:induction false} EgressInImage(s: State, ports: PortMap, p: U16, dsts: seq<U16>, rs: seq<Reply>)
    requires |rs| == |dsts| && InImage(ports, s)
    ensures InImage(ports, EgressCalls(s, ports, p, dsts, rs).0)
    decreases dsts
  {
    if dsts != [] {
      var (s1, rc) := EgressTurn(s, ports, p, dsts[0], rs[0]);
      assert dsts[0] in ports ==> IsPhysical(ports, Phys(ports, dsts[0]));
      assert InImage(ports, s1);
      EgressInImage(s1, ports, p, dsts[1..], rs[1..]);
    }
  }

  lemma {:induction false} AfterInImage(ports: PortMap, calls: seq<Call>)
    ensures InImage(ports, After(ports, calls))
    decreases |calls|
  {
    if calls != [] {
      var s := After(ports, calls[..|calls| - 1]);
      AfterInImage(ports, calls[..|calls| - 1]);
      match calls[|calls| - 1]
      case MirrorPort(src, dst, r) => assert dst in ports ==> IsPhysical(ports, Phys(ports, dst));
      case SetPortEgress(l, legs) =>
        if l in ports { EgressInImage(s, ports, Phys(ports, l), Dsts(legs), Replies(legs)); }
      case _ =>
    }
  }

  // What an OK is worth.

  /** After these calls an OK from VendorSetPortEgress on l, with every creation granted, means that l's physical port
      is mirrored to the physical port of every destination the map knows. */
  ghost predicate Covers(ports: PortMap, calls: seq<Call>, l: U16, legs: seq<Leg>)
    requires l in ports
  {
    var p := Phys(ports, l);
    var (t, rc) := EgressCalls(After(ports, calls), ports, p, Dsts(legs), Replies(legs));
    rc == RC_OK && Granted(Replies(legs)) ==>
      forall d :: d in Dsts(legs) && d in ports ==> Mirrored(t, p, Phys(ports, d))
  }

  /** A physical number that is also a logical one stands for itself. */
  ghost predicate Steady(ports: PortMap) {
    forall l: U16 :: l in ports && Phys(ports, l) in ports ==> Phys(ports, Phys(ports, l)) == Phys(ports, l)
  }

  lemma SteadyAt(ports: PortMap, p: U16)
    requires Steady(ports) && IsPhysical(ports, p) && p in ports
    ensures Phys(ports, p) == p
  {
  }

  /** One turn on a steady map: an OK mirrors p to the destination's physical port. */
  /** What one destination comes to. A destination whose number has a row with the port in it is passed over; a number
      that is not a logical port fails, and so does every destination when the port's own number is not one; and an OK
      otherwise, with the creation granted, mirrors what the two numbers stand for. */
  lemma TurnAnswer(s: State, ports: PortMap, p: U16, d: U16, r: Reply)
    ensures var (t, rc) := EgressCalls(s, ports, p, [d], [r]);
            && (Mirrored(s, p, d) ==> rc == RC_OK && t == s)
            && (!Mirrored(s, p, d) && (p !in ports || d !in ports) ==> rc == RC_FAIL && t == s)
            && (!Mirrored(s, p, d) && p in ports && d in ports ==>
                  && OtherPairs(s, t, Phys(ports, p), Phys(ports, d))
                  && (rc == RC_OK && r.created.Some? ==> Mirrored(t, Phys(ports, p), Phys(ports, d)))
                  && (rc == RC_FAIL ==> !Mirrored(t, Phys(ports, p), Phys(ports, d))))
  {
    assert [d][1..] == [] && [r][1..] == [];
    if p in ports && d in ports {
      MirrorAnswer(s, Phys(ports, p), Phys(ports, d), r);
    }
  }

  /** The first k destinations alone. */
  function Front(s: State, ports: PortMap, p: U16, dsts: seq<U16>, rs: seq<Reply>, k: nat): (State, int)
    requires k <= |dsts| == |rs|
  {
    EgressCalls(s, ports, p, dsts[..k], rs[..k])
  }

  /** The first failure stops the call: the destinations before it are as if asked for alone, it is the last to be
      tried, and no later one is. */
  lemma {:induction false} EgressStops(s: State, ports: PortMap, p: U16, dsts: seq<U16>, rs: seq<Reply>, k: nat)
    requires k < |dsts| == |rs| && Front(s, ports, p, dsts, rs, k).1 == RC_OK
    requires EgressCalls(Front(s, ports, p, dsts, rs, k).0, ports, p, [dsts[k]], [rs[k]]).1 == RC_FAIL
    ensures EgressCalls(s, ports, p, dsts, rs)
         == EgressCalls(Front(s, ports, p, dsts, rs, k).0, ports, p, [dsts[k]], [rs[k]])
    decreases k
  {
    assert [dsts[k]][1..] == [] && [rs[k]][1..] == [];
    if k > 0 {
      var s1 := EgressTurn(s, ports, p, dsts[0], rs[0]).0;
      assert dsts[..k][1..] == dsts[1..][..k - 1] && rs[..k][1..] == rs[1..][..k - 1];
      EgressStops(s1, ports, p, dsts[1..], rs[1..], k - 1);
    }
  }

  lemma TurnCovers(s: State, ports: PortMap, p: U16, d: U16, r: Reply)
    requires Steady(ports) && InImage(ports, s) && IsPhysical(ports, p) && r.created.Some? && d in ports
    requires EgressTurn(s, ports, p, d, r).1 == RC_OK
    ensures Mirrored(EgressTurn(s, ports, p, d, r).0, p, Phys(ports, d))
  {
    if d in s.rows && p in s.rows[d].portsIn {
      SteadyAt(ports, d);
    } else {
      SteadyAt(ports, p);
      OkMeansMirrored(s, p, Phys(ports, d), r);
    }
  }

  lemma {:induction false} LoopCovers(s: State, ports: PortMap, p: U16, dsts: seq<U16>, rs: seq<Reply>, e: U16)
    requires |rs| == |dsts| && Steady(ports) && InImage(ports, s) && IsPhysical(ports, p) && Granted(rs)
    requires e in dsts && e in ports && EgressCalls(s, ports, p, dsts, rs).1 == RC_OK
    ensures Mirrored(EgressCalls(s, ports, p, dsts, rs).0, p, Phys(ports, e))
    decreases dsts
  {
    var d, r := dsts[0], rs[0];
    var s1 := EgressTurn(s, ports, p, d, r).0;
    assert d in ports ==> IsPhysical(ports, Phys(ports, d));
    if e == d {
      TurnCovers(s, ports, p, d, r);
      EgressCovers(s1, ports, p, dsts[1..], rs[1..], p, Phys(ports, e));
    } else {
      LoopCovers(s1, ports, p, dsts[1..], rs[1..], e);
    }
  }

  lemma SteadyCovers(ports: PortMap, calls: seq<Call>, l: U16, legs: seq<Leg>)
    requires Steady(ports) && l in ports
    ensures Covers(ports, calls, l, legs)
  {
    var p, dsts, rs := Phys(ports, l), Dsts(legs), Replies(legs);
    var s := After(ports, calls);
    AfterInImage(ports, calls);
    if EgressCalls(s, ports, p, dsts, rs).1 == RC_OK && Granted(rs) {
      forall d | d in dsts && d in ports ensures Mirrored(EgressCalls(s, ports, p, dsts, rs).0, p, Phys(ports, d)) {
        assert IsPhysical(ports, p);
        LoopCovers(s, ports, p, dsts, rs, d);
      }
    }
  }

  /** A handle for port q that is not null. */
  function HandleFor(q: U16): Oid {
    0x1_0000 + q
  }

  lemma HandleForId(q: U16)
    ensures PortIdOf(HandleFor(q)) == q
  {
  }

  const GRANTED := ALL_OK.(created := Some(1))

  /** The failing run: l's physical port q is itself a logical port that stands for q'. Once q' is known, mirroring l
      to the one destination q mirrors q' to q', and reports success. */
  lemma UnsteadyMisses(ports: PortMap, l: U16)
    requires l in ports && Phys(ports, l) in ports && Phys(ports, Phys(ports, l)) != Phys(ports, l)
    ensures var q := Phys(ports, l);
            var calls := [NewPort(HandleFor(Phys(ports, q)))];
            var legs := [Leg(q, GRANTED)];
            PossibleCalls(ports, calls + [SetPortEgress(l, legs)]) && !Covers(ports, calls, l, legs)
  {
    var q := Phys(ports, l);
    var q' := Phys(ports, q);
    var add, legs := NewPort(HandleFor(q')), [Leg(q, GRANTED)];
    HandleForId(q');
    var s := EMPTY.(handles := map[q' := HandleFor(q')]);
    assert [add][..0] == [] && After(ports, [add]) == Made(ports, EMPTY, add) == s;
    assert Dsts(legs) == [q] && Replies(legs) == [GRANTED] && [q][1..] == [] && [GRANTED][1..] == [];
    var t := MirrorStep(s, q', q', GRANTED).0;
    assert EgressTurn(s, ports, q, q, GRANTED) == (t, RC_OK);
    assert EgressCalls(s, ports, q, [q], [GRANTED]) == EgressCalls(t, ports, q, [], []) == (t, RC_OK);
    assert t.rows[q'].portsIn == {q'};
    assert q in Dsts(legs) && !Mirrored(t, q, q');
    UnsteadyPossible(ports, l, add, legs);
  }

  lemma UnsteadyPossible(ports: PortMap, l: U16, add: Call, legs: seq<Leg>)
    requires add.NewPort? && l in ports && |legs| == 1 && legs[0].reply == GRANTED
    ensures PossibleCalls(ports, [add] + [SetPortEgress(l, legs)])
  {
    var s := After(ports, [add]);
    assert [add][..0] == [] && PossibleCalls(ports, []) && PossibleCalls(ports, [add]);
    assert After(ports, [add]) == Made(ports, After(ports, []), add);
    assert s.sessions == map[] && Fresh(s, GRANTED);
    var dsts, rs := Dsts(legs), Replies(legs);
    assert rs[0] == GRANTED && dsts[1..] == [];
    assert FreshLegs(s, ports, Phys(ports, l), dsts, rs);
    var calls := [add] + [SetPortEgress(l, legs)];
    assert calls[..|calls| - 1] == [add] && calls[|calls| - 1] == SetPortEgress(l, legs);
  }

  /** The exact condition on the map: over every run of the entry points an OK covers the destinations if and only if
      every physical number that is also a logical port stands for itself. */
  lemma EgressCoversIff(ports: PortMap)
    ensures Steady(ports) <==>
            forall calls, l: U16, legs ::
              l in ports && PossibleCalls(ports, calls + [SetPortEgress(l, legs)]) ==> Covers(ports, calls, l, legs)
  {
    if Steady(ports) {
      forall calls, l: U16, legs | l in ports && PossibleCalls(ports, calls + [SetPortEgress(l, legs)])
        ensures Covers(ports, calls, l, legs)
      {
        SteadyCovers(ports, calls, l, legs);
      }
    } else {
      var l: U16 :| l in ports && Phys(ports, l) in ports && Phys(ports, Phys(ports, l)) != Phys(ports, l);
      UnsteadyMisses(ports, l);
    }
  }

  // An empty row left behind, and cleaned up.

  lemma EmptyRowLeft(s: State, p: U16, d: U16, ms: Oid)
    requires s.rows == map[] && s.sessions == map[] && p in s.handles && d in s.handles
    ensures var t := MirrorStep(s, p, d, ALL_OK.(created := Some(ms))).0;
            var u := UnmirrorStep(t, p, d, ALL_OK.(removed := false)).0;
            && t.rows == map[d := McInfo(ms, {p})] && t.sessions == map[ms := s.handles[d]]
            && u == Left(t, p, d) && u.rows == map[d := McInfo(ms, {})] && u.sessions == t.sessions
            && u.handles == s.handles
  {
    var r := ALL_OK.(created := Some(ms));
    var s1 := Opened(s, d, ms);
    assert MirrorStep(s, p, d, r).0 == Joined(s1, p, d);
    var t := Joined(s1, p, d);
    assert {} + {p} == {p} && t.rows[d] == McInfo(ms, {p});
    assert t.rows.Keys == {d};
    assert t.rows == map[d := McInfo(ms, {p})];
    assert Left(t, p, d).rows[d] == McInfo(ms, {});
  }

  lemma EmptyRowGone(s: State, p: U16, d: U16, ms: Oid, o: Oid)
    requires s.rows == map[d := McInfo(ms, {})] && s.sessions == map[ms := o] && p in s.handles && d in s.handles
    ensures var t := MirrorStep(s, p, d, ALL_OK).0;
            var u := UnmirrorStep(t, p, d, ALL_OK).0;
            t.sessions == s.sessions && u.rows == map[] && u.sessions == map[]
  {
    assert MirrorStep(s, p, d, ALL_OK).0 == Joined(s, p, d);
    var t := Left(Joined(s, p, d), p, d);
    assert t.rows[d] == McInfo(ms, {});
  }

  const KEPT := ALL_OK.(removed := false)

  /** Both ports known, mirroring and then unmirroring with the removal of the session refused. */
  function Leaving(p: U16, d: U16, src: U16, dst: U16): seq<Call> {
    [NewPort(HandleFor(p)), NewPort(HandleFor(d)), MirrorPort(src, dst, GRANTED), RemoveMirrorPort(src, dst, KEPT)]
  }

  function Again(src: U16, dst: U16): seq<Call> {
    [MirrorPort(src, dst, ALL_OK), RemoveMirrorPort(src, dst, ALL_OK)]
  }

  /** For any two logical ports that run leaves an empty row with a live session; mirroring and unmirroring the same
      pair once more takes both away. */
  lemma EmptyRowCleanedUp(ports: PortMap, src: U16, dst: U16)
    requires src in ports && dst in ports
    ensures var p, d := Phys(ports, src), Phys(ports, dst);
            var calls := Leaving(p, d, src, dst);
            var left, gone := After(ports, calls), After(ports, calls + Again(src, dst));
            && PossibleCalls(ports, calls + Again(src, dst))
            && left.rows == map[d := McInfo(1, {})] && left.sessions == map[1 := HandleFor(d)]
            && gone.rows == map[] && gone.sessions == map[]
  {
    var p, d := Phys(ports, src), Phys(ports, dst);
    var c, c' := Leaving(p, d, src, dst), Again(src, dst);
    Next(ports, [], c[0]);
    Next(ports, [c[0]], c[1]);
    var s2 := After(ports, [c[0]] + [c[1]]);
    KnownPair(p, d);
    assert s2 == Made(ports, Made(ports, EMPTY, c[0]), c[1]);
    EmptyRowLeft(s2, p, d, 1);
    Next(ports, [c[0]] + [c[1]], c[2]);
    Next(ports, [c[0]] + [c[1]] + [c[2]], c[3]);
    assert c == [c[0]] + [c[1]] + [c[2]] + [c[3]];
    EmptyRowGone(After(ports, c), p, d, 1, HandleFor(d));
    Next(ports, c, c'[0]);
    Next(ports, c + [c'[0]], c'[1]);
    assert c + c' == c + [c'[0]] + [c'[1]];
  }

  lemma KnownPair(p: U16, d: U16)
    ensures var h := AddHandle(AddHandle(map[], HandleFor(p)), HandleFor(d));
            p in h && d in h && h[d] == HandleFor(d)
  {
    HandleForId(p);
    HandleForId(d);
  }

  lemma Next(ports: PortMap, calls: seq<Call>, c: Call)
    ensures After(ports, calls + [c]) == Made(ports, After(ports, calls), c)
    ensures PossibleCalls(ports, calls + [c]) <==>
              PossibleCalls(ports, calls) && FreshCall(ports, After(ports, calls), c)
  {
    assert (calls + [c])[..|calls + [c]| - 1] == calls;
  }
}
