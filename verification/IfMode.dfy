/** The switch-over between SGMII and 1000BASE-X: four mutually recursive entry points that chase the SFP's
    copper reading (esalSaiPort.cc). */
module IfMode {
  import opened Sai
  import opened PortMap
  import opened PortTable

  /** One port after esalPortTableSetIfMode has run to completion, `copper` being what the SFP reports. */
  function AfterIfMode(e: PortEntry, copper: bool): PortEntry {
    if !e.isChangeable || e.isCopper == e.isSgmii then e
    else e.(isCopper := copper, isSgmii := copper, adminState := true,
            rate := if e.isCopper && copper then e.rate else DEFAULT_RATE)
  }

  /** One port after VendorSetPortRate, `supported` and `changeable` being what the SFP library and sai.cfg
      say about the logical port. */
  function AfterRate(e: PortEntry, lPort: U16, rate: Rate, supported: bool, changeable: bool, copper: bool,
                     warm: bool): PortEntry {
    var e1 := e.(lPort := lPort, rate := rate, isCopper := supported && copper,
                 isChangeable := supported && changeable);
    if warm || !supported then e1 else AfterIfMode(e1.(adminState := true), copper)
  }

  /** What setting a rate comes to. The logical port and the changeable mark are recorded, and a changeable mark needs
      the SFP library. On a port the library serves, and outside a warm restart, the port is up and its recorded medium
      and, if it is changeable, its mode are at the reading; and the rate asked for is the one recorded, unless the
      port had to be switched over to fibre. Otherwise nothing is switched. */
  lemma RateTakes(
      e: PortEntry, lPort: U16, rate: Rate, supported: bool, changeable: bool, copper: bool, warm: bool)
    ensures var f := AfterRate(e, lPort, rate, supported, changeable, copper, warm);
            && f.portId == e.portId && f.portSai == e.portSai && f.lPort == lPort
            && (f.isChangeable <==> supported && changeable)
            && (f.isCopper <==> supported && copper)
            && (warm || !supported ==> f.isSgmii == e.isSgmii && f.adminState == e.adminState && f.rate == rate)
            && (!warm && supported ==>
                  && f.adminState && f.isSgmii == (if changeable then copper else e.isSgmii)
                  && (f.rate == rate <==> !changeable || copper || !e.isSgmii || rate == DEFAULT_RATE)
                  && (f.rate == rate || f.rate == DEFAULT_RATE))
  {
  }

  /** How many switch-overs are still to come: none when the flags agree, one when only the mode is out of
      date, two when the recorded medium is out of date as well. */
  function Lag(e: PortEntry, copper: bool): nat {
    if !e.isChangeable || e.isCopper == e.isSgmii then 0
    else if e.isCopper == copper then 1
    else 2
  }

  /** One call settles the port: a second one does nothing. Any switch-over ends with mode and recorded medium both
      at the reading, and the user's rate lives through it only when the medium was, and still is, copper. */
  lemma SwitchOverSettles(e: PortEntry, copper: bool)
    ensures var f := AfterIfMode(e, copper);
            && Lag(f, copper) == 0 && AfterIfMode(f, copper) == f
            && (Lag(e, copper) == 0 ==> f == e)
            && (Lag(e, copper) > 0 ==>
                  && f.isSgmii == f.isCopper == copper && f.adminState
                  && (f.rate == e.rate <==> (e.isCopper && copper) || e.rate == DEFAULT_RATE))
  {
  }

  /** One link-state poll of a port by the logical port it remembers. */
  function Poll(e: PortEntry, copper: bool): PortEntry {
    if e.isChangeable then AfterIfMode(e.(isCopper := copper), copper) else e
  }

  function Polls(e: PortEntry, readings: seq<bool>): PortEntry {
    if readings == [] then e
    else Poll(Polls(e, readings[..|readings| - 1]), readings[|readings| - 1])
  }

  /** Reading i is fibre and the one before it, `before` at the start, was copper. */
  ghost predicate FallsAt(before: bool, readings: seq<bool>, i: nat) {
    i < |readings| && !readings[i] && (if i == 0 then before else readings[i - 1])
  }

  ghost predicate LeavesCopper(before: bool, readings: seq<bool>) {
    exists i: nat :: FallsAt(before, readings, i)
  }

  /** Over any sequence of readings the mode follows the last one, and the rate the user configured is lost,
      for good, exactly when the SFP has gone from copper to fibre at least once. */
  lemma {:induction false} PollsFollow(e: PortEntry, readings: seq<bool>)
    requires e.isChangeable && e.isCopper == e.isSgmii
    ensures var f := Polls(e, readings);
            && f.isChangeable && f.lPort == e.lPort
            && f.isSgmii == f.isCopper == (if readings == [] then e.isSgmii else readings[|readings| - 1])
            && f.rate == if LeavesCopper(e.isSgmii, readings) then DEFAULT_RATE else e.rate
  {
    if readings != [] {
      var n := |readings| - 1;
      var front := readings[..n];
      PollsFollow(e, front);
      forall i: nat
        ensures FallsAt(e.isSgmii, readings, i) <==>
                  FallsAt(e.isSgmii, front, i) || (i == n && FallsAt(e.isSgmii, readings, n))
      {
        assert i < n ==> front[i] == readings[i];
        assert 0 < i <= n ==> front[i - 1] == readings[i - 1];
      }
      assert LeavesCopper(e.isSgmii, readings) <==> LeavesCopper(e.isSgmii, front) || FallsAt(e.isSgmii, readings, n);
    }
  }

  predicate Live(s: seq<PortEntry>, p: U16) {
    FirstById(s, p) < |s|
  }

  function Entry(s: seq<PortEntry>, p: U16): PortEntry
    requires Live(s, p)
  {
    s[FirstById(s, p)]
  }

  /** s' differs from s at most in the live entry of port p, whose keys are kept. */
  ghost predicate Confined(s: seq<PortEntry>, s': seq<PortEntry>, p: U16) {
    var i := FirstById(s, p);
    && |s'| == |s|
    && (i < |s| ==> s'[i].portId == p && s'[i].portSai == s[i].portSai)
    && forall j :: 0 <= j < |s| && j != i ==> s'[j] == s[j]
  }

  lemma ConfinedKeepsFirst(s: seq<PortEntry>, s': seq<PortEntry>, p: U16, id: U16)
    requires Confined(s, s', p)
    ensures FirstById(s', id) == FirstById(s, id)
  {
    assert forall j :: 0 <= j < |s| ==> s'[j].portId == s[j].portId;
    var a, b := FirstById(s, id), FirstById(s', id);
  }

  lemma ConfinedTransitive(s: seq<PortEntry>, s': seq<PortEntry>, s'': seq<PortEntry>, p: U16)
    requires Confined(s, s', p) && Confined(s', s'', p)
    ensures Confined(s, s'', p) && FirstById(s'', p) == FirstById(s, p)
  {
    ConfinedKeepsFirst(s, s', p, p);
    ConfinedKeepsFirst(s', s'', p, p);
  }

  /** Outside `refused` the ports whose recorded mode is SGMII are exactly those whose interface is. */
  ghost predicate InStep(s: seq<PortEntry>, sgmii: set<U16>, refused: set<U16>) {
    forall id: U16 :: id !in refused ==> (id in sgmii <==> Live(s, id) && Entry(s, id).isSgmii)
  }

  /** Keeping a port's recorded mode, or moving mode and hardware together, keeps them in step. */
  lemma ConfinedInStep(
      s: seq<PortEntry>, s': seq<PortEntry>, p: U16, on: set<U16>, on': set<U16>, refused: set<U16>, refused': set<U16>)
    requires Confined(s, s', p) && InStep(s, on, refused) && Live(s, p)
    requires on' - {p} == on - {p} && refused' - {p} == refused - {p}
    requires p !in refused' ==> (p in on' <==> s'[FirstById(s, p)].isSgmii)
    ensures InStep(s', on', refused')
  {
    forall id: U16 | id !in refused' ensures id in on' <==> Live(s', id) && Entry(s', id).isSgmii {
      ConfinedKeepsFirst(s, s', p, id);
      if id != p {
        assert id in on' <==> id in on' - {p};
        assert id in on <==> id in on - {p};
        assert id in refused' <==> id in refused' - {p};
        assert id in refused <==> id in refused - {p};
        assert id in on <==> Live(s, id) && Entry(s, id).isSgmii;
      }
    }
  }

  lemma AppendInStep(s: seq<PortEntry>, e: PortEntry, on: set<U16>, refused: set<U16>)
    requires !e.isSgmii && InStep(s, on, refused)
    ensures InStep(s + [e], on, refused)
  {
    forall id: U16 | id !in refused ensures id in on <==> Live(s + [e], id) && Entry(s + [e], id).isSgmii {
      AppendKeepsLookups(s, e, id, 0);
      assert id in on <==> Live(s, id) && Entry(s, id).isSgmii;
      var i, k := FirstById(s, id), FirstById(s + [e], id);
      assert forall j :: 0 <= j < |s| ==> (s + [e])[j] == s[j];
    }
  }

  class PortDriver {
    const ports: PortMap
    const sfp: set<U16>            // logical ports the SFP library supports
    var entries: seq<PortEntry>    // the live prefix of portTable
    var copper: set<U16>           // logical ports for which an SFP read yields copper, whatever its return code
    var warmRestart: bool

    // The hardware.
    ghost var sgmii: set<U16>      // ports whose interface is in SGMII mode
    ghost var refused: set<U16>    // ports whose last mode-set call failed
    ghost var refusals: nat        // mode-set calls that failed
    ghost var switches: nat        // times an interface was deleted and created again
    ghost var failed: bool         // some CPSS, SAI or SFP call has failed

    /** A changeable port remembers a logical port that leads back to it and that the SFP library serves. */
    ghost predicate Anchored(e: PortEntry) {
      e.isChangeable ==>
        && e.lPort in ports && e.lPort in sfp
        && Low16(ports[e.lPort].pPort) == e.portId
        && ports[e.lPort].changeable && !ports[e.lPort].l2CommsProvDisable
    }

    ghost predicate Valid()
      reads this
    {
      && |entries| <= MAX_PORT_TABLE_SIZE && WellFormed(entries)
      && (forall i :: 0 <= i < |entries| ==> Anchored(entries[i]))
      && InStep(entries, sgmii, refused) && (!failed ==> refused == {})
    }

    /** Only port p's interface may have been touched, and no port got out of step unless a mode-set call failed. */
    twostate predicate OnlyInterface(p: U16)
      reads this
    {
      && sgmii - {p} == old(sgmii) - {p} && refused - {p} == old(refused) - {p}
      && old(refusals) <= refusals && (refusals == old(refusals) ==> refused <= old(refused))
    }

    twostate predicate SameInterfaces()
      reads this
    {
      sgmii == old(sgmii) && refused == old(refused) && refusals == old(refusals)
    }

    /** Switch-overs still to come for a port, given the entries. */
    ghost function PortLag(s: seq<PortEntry>, p: U16): nat
      reads this`copper, this`warmRestart
    {
      if warmRestart || !Live(s, p) then 0 else Lag(Entry(s, p), Entry(s, p).lPort in copper)
    }

    ghost function LogicalLag(s: seq<PortEntry>, lPort: U16): nat
      reads this`copper, this`warmRestart
    {
      if lPort !in ports then 0 else PortLag(s, Low16(ports[lPort].pPort))
    }

    /** The lag left once VendorSetPortRate has refreshed the recorded medium. */
    ghost function RateLag(s: seq<PortEntry>, lPort: U16): nat
      reads this`copper
    {
      if lPort !in ports || !Live(s, Low16(ports[lPort].pPort)) then 0
      else if Entry(s, Low16(ports[lPort].pPort)).isSgmii == (lPort in copper) then 0
      else 1
    }

    /** The entry of a port after SetIfMode, under the current readings. */
    ghost function Settled(e: PortEntry): PortEntry
      reads this`copper, this`warmRestart
    {
      if warmRestart then e else AfterIfMode(e, e.lPort in copper)
    }

    constructor (ports: PortMap, sfp: set<U16>)
      ensures Valid() && entries == [] && !failed && switches == 0
      ensures this.ports == ports && this.sfp == sfp
    {
      this.ports, this.sfp := ports, sfp;
      copper, warmRestart := {}, false;
      entries, sgmii, refused, refusals, switches, failed := [], {}, {}, 0, 0, false;
    }

    /** Any call into CPSS, SAI or the SFP library: it may fail, and a failure is remembered. */
    method Call() returns (ok: bool)
      modifies this`failed
      ensures failed == (old(failed) || !ok)
      ensures old(Valid()) ==> Valid()
    {
      ok := *;
      failed := failed || !ok;
    }

    /** Delete the interface, set its mode, create it again; only the mode-set call decides the mode. */
    method SwitchOver(portId: U16, toSgmii: bool) returns (ghost ok: bool)
      modifies this`sgmii, this`refused, this`refusals, this`switches, this`failed
      ensures switches == old(switches) + 1
      ensures (old(failed) || !ok) ==> failed
      ensures sgmii == if !ok then old(sgmii) else if toSgmii then old(sgmii) + {portId} else old(sgmii) - {portId}
      ensures refused == if ok then old(refused) - {portId} else old(refused) + {portId}
      ensures refusals == if ok then old(refusals) else old(refusals) + 1
    {
      var done := Call();
      done := Call(); // the mode-set call
      ok := done;
      refused := if done then refused - {portId} else refused + {portId};
      refusals := if done then refusals else refusals + 1;
      if done {
        sgmii := if toSgmii then sgmii + {portId} else sgmii - {portId};
      }
      done := Call();
      switches := switches + 1;
    }

    /** A write to the live entry of a port that keeps its keys and recorded mode. */
    method Write(p: U16, e: PortEntry)
      requires Valid() && Live(entries, p) && Anchored(e)
      requires e.portId == p && e.portSai == Entry(entries, p).portSai && e.isSgmii == Entry(entries, p).isSgmii
      modifies this`entries
      ensures Valid() && Confined(old(entries), entries, p)
      ensures Live(entries, p) && Entry(entries, p) == e
      ensures entries == old(entries)[FirstById(old(entries), p) := e]
    {
      ghost var s := entries;
      entries := entries[FirstById(entries, p) := e];
      ConfinedKeepsFirst(s, entries, p, p);
      ConfinedInStep(s, entries, p, sgmii, sgmii, refused, refused);
    }

    /** Record the new mode and switch the interface over. */
    method Flip(p: U16)
      requires Valid() && Live(entries, p)
      modifies this`sgmii, this`refused, this`refusals, this`switches, this`failed, this`entries
      ensures OnlyInterface(p)
      ensures Valid() && (old(failed) ==> failed) && switches == old(switches) + 1
      ensures Confined(old(entries), entries, p) && Live(entries, p)
      ensures var e := Entry(old(entries), p); Entry(entries, p) == e.(isSgmii := e.isCopper)
    {
      ghost var s, on, out := entries, sgmii, refused;
      var e := Entry(entries, p);
      entries := entries[FirstById(entries, p) := e.(isSgmii := e.isCopper)];
      ConfinedKeepsFirst(s, entries, p, p);
      ghost var ok := SwitchOver(p, e.isCopper);
      ConfinedInStep(s, entries, p, on, sgmii, out, refused);
    }

    /** esalPortTableAddEntry. */
    method AddEntry(portSai: Oid) returns (ok: bool)
      requires Valid()
      modifies this`entries, this`failed
      ensures Valid() && (old(failed) ==> failed)
      ensures ok ==> entries == old(entries) + [Appended(portSai)]
      ensures !ok ==> entries == old(entries) && (failed || |entries| >= MAX_PORT_TABLE_SIZE)
    {
      ok := Call();
      if !ok || |entries| >= MAX_PORT_TABLE_SIZE { return false; }
      AppendInStep(entries, Appended(portSai), sgmii, refused);
      entries := entries + [Appended(portSai)];
    }

    method SetIfMode(p: U16)
      requires Valid()
      modifies this`sgmii, this`refused, this`refusals, this`switches, this`failed, this`entries
      ensures OnlyInterface(p)
      ensures Valid() && (old(failed) ==> failed)
      ensures Confined(old(entries), entries, p)
      ensures PortLag(old(entries), p) == 0 ==> entries == old(entries) && failed == old(failed)
      ensures !failed && Live(old(entries), p) ==>
                && Live(entries, p) && Entry(entries, p) == Settled(Entry(old(entries), p))
                && switches == old(switches) + PortLag(old(entries), p)
      ensures switches <= old(switches) + PortLag(old(entries), p)
      decreases PortLag(entries, p), 0
    {
      if warmRestart || !Live(entries, p) { return; }
      var e := Entry(entries, p);
      if !e.isChangeable || e.isCopper == e.isSgmii { return; }
      Flip(p);
      ghost var s := entries;
      var rc := SetPortRate(e.lPort, if e.isCopper then e.rate else DEFAULT_RATE);
      ConfinedKeepsFirst(s, entries, p, p);
      var ok := Call(); // perPortCfgFlowControlInit
    }

    method EnablePort(lPort: U16) returns (rc: int)
      requires Valid()
      modifies this`sgmii, this`refused, this`refusals, this`switches, this`failed, this`entries
      ensures if lPort in ports then OnlyInterface(Low16(ports[lPort].pPort)) else SameInterfaces()
      ensures Valid() && (old(failed) ==> failed)
      ensures lPort !in ports || !Live(old(entries), Low16(ports[lPort].pPort)) ==>
                rc == RC_FAIL && entries == old(entries)
      ensures lPort in ports ==>
                var p := Low16(ports[lPort].pPort);
                && Confined(old(entries), entries, p)
                && (!failed && Live(old(entries), p) ==>
                      && rc == RC_OK && Live(entries, p)
                      && Entry(entries, p) == Settled(Entry(old(entries), p)).(adminState := true)
                      && switches == old(switches) + LogicalLag(old(entries), lPort))
      ensures switches <= old(switches) + LogicalLag(old(entries), lPort)
      decreases LogicalLag(entries, lPort), 2
    {
      if lPort !in ports { return RC_FAIL; }
      var p := Low16(ports[lPort].pPort);
      var ok := Call();
      if !ok || !Live(entries, p) { return RC_FAIL; }
      rc := BringUp(p);
    }

    /** VendorEnablePort once the port's handle is known. */
    method BringUp(p: U16) returns (rc: int)
      requires Valid() && Live(entries, p)
      modifies this`sgmii, this`refused, this`refusals, this`switches, this`failed, this`entries
      ensures OnlyInterface(p)
      ensures Valid() && (old(failed) ==> failed)
      ensures Confined(old(entries), entries, p)
      ensures !failed ==>
                && rc == RC_OK && Live(entries, p)
                && Entry(entries, p) == Settled(Entry(old(entries), p)).(adminState := true)
                && switches == old(switches) + PortLag(old(entries), p)
      ensures switches <= old(switches) + PortLag(old(entries), p)
      decreases PortLag(entries, p), 1
    {
      var ok := Call(); // admin state up
      if !ok { return RC_FAIL; }
      SetIfMode(p);
      ConfinedKeepsFirst(old(entries), entries, p, p);
      ghost var s := entries;
      ok := Call(); // perPortCfgFlowControlInit
      if !ok { return RC_FAIL; }
      Write(p, Entry(entries, p).(adminState := true));
      ConfinedTransitive(old(entries), s, entries, p);
      return RC_OK;
    }

    /** On success a known port is recorded as down and an unknown one has the null handle added; without success an
        unknown port may have been added all the same. */
    ghost predicate TakenDown(s: seq<PortEntry>, s': seq<PortEntry>, p: U16, ok: bool) {
      if !Live(s, p) then s' == s + [Appended(NULL_OID)] || (!ok && s' == s)
      else if ok then Confined(s, s', p) && Live(s', p) && Entry(s', p) == Entry(s, p).(adminState := false)
      else s' == s
    }

    method DisablePort(lPort: U16) returns (rc: int)
      requires Valid()
      modifies this`failed, this`entries
      ensures Valid() && (old(failed) ==> failed)
      ensures rc == RC_OK || rc == RC_FAIL
      ensures lPort !in ports ==> rc == RC_FAIL && entries == old(entries)
      ensures lPort in ports ==>
                var p := Low16(ports[lPort].pPort);
                && TakenDown(old(entries), entries, p, rc == RC_OK)
                && (rc == RC_FAIL ==>
                      || failed
                      || (!Live(old(entries), p) && |old(entries)| == MAX_PORT_TABLE_SIZE && entries == old(entries)))
    {
      if lPort !in ports { return RC_FAIL; }
      var p := Low16(ports[lPort].pPort);
      var ok := Call();
      if !ok { return RC_FAIL; }
      if SaiOf(entries, p).None? {
        // The handle is still null here, so the entry that is added serves id 0.
        ok := AddEntry(NULL_OID);
        if !ok { return RC_FAIL; }
        AppendKeepsLookups(old(entries), Appended(NULL_OID), p, 0);
      }
      ok := Call(); // admin state down
      if !ok { return RC_FAIL; }
      if Live(entries, p) {
        Write(p, Entry(entries, p).(adminState := false));
      }
      return RC_OK;
    }

    method ResetPort(lPort: U16) returns (rc: int)
      requires Valid()
      modifies this`sgmii, this`refused, this`refusals, this`switches, this`failed, this`entries
      ensures if lPort in ports then OnlyInterface(Low16(ports[lPort].pPort)) else SameInterfaces()
      ensures Valid() && (old(failed) ==> failed) && rc == RC_OK
      ensures lPort in ports && Live(old(entries), Low16(ports[lPort].pPort)) ==>
                var p := Low16(ports[lPort].pPort);
                && Confined(old(entries), entries, p)
                && (!failed ==>
                      && Live(entries, p)
                      && Entry(entries, p) == Settled(Entry(old(entries), p)).(adminState := true)
                      && switches == old(switches) + LogicalLag(old(entries), lPort))
                && switches <= old(switches) + LogicalLag(old(entries), lPort)
      ensures lPort !in ports ==> entries == old(entries)
      ensures lPort in ports && !Live(old(entries), Low16(ports[lPort].pPort)) ==>
                Cycled(old(entries), entries, Low16(ports[lPort].pPort), failed)
      decreases LogicalLag(entries, lPort), 4
    {
      var ok := Call(); // esalSFPResetPort
      Cycle(lPort, if lPort in ports then Low16(ports[lPort].pPort) else 0);
      return RC_OK;
    }

    /** Resetting an unknown port: unless the table is full it gains the null entry, which is brought up when it is the
        one that serves the port, and that is when the port's id is 0. */
    ghost predicate Cycled(s: seq<PortEntry>, s': seq<PortEntry>, p: U16, failed: bool) {
      && s <= s' && |s'| <= |s| + 1
      && (!failed ==>
            s' == if |s| == MAX_PORT_TABLE_SIZE then s else s + [Appended(NULL_OID).(adminState := p == 0)])
    }

    /** Down and up again; p is the port's id when the port is known. */
    method Cycle(lPort: U16, ghost p: U16)
      requires Valid() && (lPort in ports ==> p == Low16(ports[lPort].pPort))
      modifies this`sgmii, this`refused, this`refusals, this`switches, this`failed, this`entries
      ensures if lPort in ports then OnlyInterface(p) else SameInterfaces()
      ensures Valid() && (old(failed) ==> failed)
      ensures lPort in ports && Live(old(entries), p) ==>
                && Confined(old(entries), entries, p)
                && (!failed ==>
                      && Live(entries, p)
                      && Entry(entries, p) == Settled(Entry(old(entries), p)).(adminState := true)
                      && switches == old(switches) + PortLag(old(entries), p))
                && switches <= old(switches) + PortLag(old(entries), p)
      ensures lPort !in ports ==> entries == old(entries)
      ensures lPort in ports && !Live(old(entries), p) ==> Cycled(old(entries), entries, p, failed)
      decreases LogicalLag(entries, lPort), 3
    {
      ghost var s0 := entries;
      var rc1 := DisablePort(lPort);
      ghost var s1 := entries;
      if lPort in ports {
        LagAfterDisable(s0, s1, p, rc1 == RC_OK);
      }
      var rc2 := EnablePort(lPort);
      if lPort in ports {
        if Live(s0, p) {
          ConfinedTransitive(s0, s1, entries, p);
        } else {
          UnknownCycled(s0, s1, entries, p, rc1 == RC_OK, failed);
        }
      }
    }

    lemma LagAfterDisable(s: seq<PortEntry>, s': seq<PortEntry>, p: U16, ok: bool)
      requires TakenDown(s, s', p, ok)
      ensures PortLag(s', p) == PortLag(s, p)
      ensures Live(s, p) ==>
                && Live(s', p) && Confined(s, s', p)
                && Settled(Entry(s', p)).(adminState := true) == Settled(Entry(s, p)).(adminState := true)
    {
      if !Live(s, p) {
        AppendKeepsLookups(s, Appended(NULL_OID), p, 0);
      }
    }

    lemma UnknownCycled(s: seq<PortEntry>, s': seq<PortEntry>, s'': seq<PortEntry>, p: U16, ok: bool, failed: bool)
      requires !Live(s, p) && TakenDown(s, s', p, ok) && Confined(s', s'', p)
      requires !failed && !ok ==> |s| == MAX_PORT_TABLE_SIZE && s' == s
      requires ok ==> |s| < MAX_PORT_TABLE_SIZE
      requires !Live(s', p) ==> s'' == s'
      requires !failed && Live(s', p) ==> Live(s'', p) && Entry(s'', p) == Settled(Entry(s', p)).(adminState := true)
      ensures Cycled(s, s'', p, failed)
    {
      if s' != s {
        AppendKeepsLookups(s, Appended(NULL_OID), p, 0);
        assert s'[|s|] == Appended(NULL_OID) && Appended(NULL_OID).portId == 0;
        if Live(s', p) {
          assert FirstById(s', p) == |s|;
        }
        assert s''[..|s|] == s;
      }
    }

    method SetPortRate(lPort: U16, rate: Rate) returns (rc: int)
      requires Valid()
      modifies this`sgmii, this`refused, this`refusals, this`switches, this`failed, this`entries
      ensures if lPort in ports then OnlyInterface(Low16(ports[lPort].pPort)) else SameInterfaces()
      ensures Valid() && (old(failed) ==> failed)
      ensures lPort !in ports || ports[lPort].l2CommsProvDisable
              || !Live(old(entries), Low16(ports[lPort].pPort)) ==>
                && entries == old(entries) && switches == old(switches)
                && rc == if lPort in ports && ports[lPort].l2CommsProvDisable then RC_OK else RC_FAIL
      ensures lPort in ports ==>
                var p := Low16(ports[lPort].pPort);
                && Confined(old(entries), entries, p)
                && (!failed && Live(old(entries), p) && !ports[lPort].l2CommsProvDisable ==>
                      && rc == RC_OK && Live(entries, p)
                      && Entry(entries, p) == AfterRate(Entry(old(entries), p), lPort, rate,
                           lPort in sfp, ports[lPort].changeable, lPort in copper, warmRestart)
                      && switches == old(switches) +
                           if lPort in sfp && ports[lPort].changeable && !warmRestart
                           then RateLag(old(entries), lPort) else 0)
      ensures switches <= old(switches) + RateLag(old(entries), lPort)
      decreases RateLag(entries, lPort), 7
    {
      if lPort !in ports { return RC_FAIL; }
      if ports[lPort].l2CommsProvDisable { return RC_OK; }
      var p := Low16(ports[lPort].pPort);
      var ok, isCopper, isSfp := ProbeSfp(lPort);
      if !ok { return RC_FAIL; }
      ok := Call();
      if !ok || SaiOf(entries, p).None? { return RC_FAIL; }
      rc := ApplyRate(lPort, p, rate, isCopper, isSfp);
    }

    /** The SFP part of VendorSetPortRate: set the rate there and read the medium. */
    method ProbeSfp(lPort: U16) returns (ok: bool, isCopper: bool, isSfp: bool)
      requires Valid() && lPort in ports
      modifies this`failed
      ensures Valid() && (old(failed) || !ok ==> failed)
      ensures ok ==> isCopper == (lPort in sfp && lPort in copper) && isSfp == (lPort in sfp && ports[lPort].changeable)
    {
      ok, isCopper, isSfp := true, false, false;
      if lPort in sfp {
        ok := Call(); // the library's entry points are there
        if ok {
          isCopper := lPort in copper;
          isSfp := ports[lPort].changeable;
        }
      }
    }

    /** VendorSetPortRate once the port's handle is known: save the rate and the medium, program the hardware
        and bounce the port. */
    method ApplyRate(lPort: U16, p: U16, rate: Rate, isCopper: bool, isSfp: bool) returns (rc: int)
      requires Valid() && lPort in ports && !ports[lPort].l2CommsProvDisable
      requires p == Low16(ports[lPort].pPort) && Live(entries, p)
      requires isCopper == (lPort in sfp && lPort in copper) && isSfp == (lPort in sfp && ports[lPort].changeable)
      modifies this`sgmii, this`refused, this`refusals, this`switches, this`failed, this`entries
      ensures OnlyInterface(p)
      ensures Valid() && (old(failed) ==> failed)
      ensures Confined(old(entries), entries, p) && Live(entries, p)
      ensures !failed ==>
                && rc == RC_OK
                && Entry(entries, p) == AfterRate(Entry(old(entries), p), lPort, rate,
                     lPort in sfp, ports[lPort].changeable, lPort in copper, warmRestart)
                && switches == old(switches) + if isSfp && !warmRestart then RateLag(old(entries), lPort) else 0
      ensures switches <= old(switches) + RateLag(old(entries), lPort)
      decreases RateLag(entries, lPort), 6
    {
      var portNum := PortIdOf(SaiOf(entries, p).value);
      var e := Entry(entries, portNum);
      Write(portNum, e.(lPort := lPort, rate := rate, isCopper := isCopper, isChangeable := isSfp));
      ghost var s := entries;
      var ok := Call(); // duplex mode and in-band auto-negotiation
      if !ok { return RC_FAIL; }
      ok := Call(); // SAI speed and FEC attributes, logged only
      if !warmRestart && lPort in sfp {
        Bounce(lPort, p);
        ConfinedTransitive(old(entries), s, entries, p);
      }
      return RC_OK;
    }

    /** The tail of VendorSetPortRate: reset the port, then take it down again if it is recorded as down. */
    method Bounce(lPort: U16, p: U16)
      requires Valid() && lPort in ports && p == Low16(ports[lPort].pPort) && Live(entries, p)
      modifies this`sgmii, this`refused, this`refusals, this`switches, this`failed, this`entries
      ensures OnlyInterface(p)
      ensures Valid() && (old(failed) ==> failed)
      ensures Confined(old(entries), entries, p) && Live(entries, p)
      ensures !failed ==>
                && Entry(entries, p) == Settled(Entry(old(entries), p)).(adminState := true)
                && switches == old(switches) + PortLag(old(entries), p)
      ensures switches <= old(switches) + PortLag(old(entries), p)
      decreases PortLag(entries, p), 5
    {
      var rc1 := ResetPort(lPort);
      ghost var s := entries;
      ConfinedKeepsFirst(old(entries), s, p, p);
      if !Entry(entries, p).adminState {
        var rc2 := DisablePort(lPort);
        ConfinedTransitive(old(entries), s, entries, p);
      }
    }

    /** The SFP part of the poll: record the reading and let the interface follow it. */
    method Refresh(lPort: U16, p: U16) returns (ok: bool)
      requires Valid()
      modifies this`sgmii, this`refused, this`refusals, this`switches, this`failed, this`entries
      ensures OnlyInterface(p)
      ensures Valid() && (old(failed) || !ok ==> failed)
      ensures Confined(old(entries), entries, p)
      ensures !Live(old(entries), p) ==> entries == old(entries)
      ensures Live(old(entries), p) && !failed ==>
                var e := Entry(old(entries), p);
                && Live(entries, p)
                && Entry(entries, p) == if e.isChangeable then Settled(e.(isCopper := lPort in copper)) else e
    {
      if Live(entries, p) && Entry(entries, p).isChangeable {
        ok := Call(); // the library's entry point is there
        if !ok { return; }
        Write(p, Entry(entries, p).(isCopper := lPort in copper));
        ghost var s := entries;
        SetIfMode(p);
        ConfinedKeepsFirst(s, entries, p, p);
      }
      return true;
    }

    /** The link-state poll, where a changed SFP is noticed. `oper` is the state SAI would report; the caller's flag is
        written only on success. */
    method GetPortLinkState(lPort: U16, oper: bool) returns (rc: int, ls: Option<bool>)
      requires Valid()
      modifies this`sgmii, this`refused, this`refusals, this`switches, this`failed, this`entries
      ensures if lPort in ports then OnlyInterface(Low16(ports[lPort].pPort)) else SameInterfaces()
      ensures Valid() && (old(failed) ==> failed)
      ensures (rc == RC_OK && ls == Some(oper)) || (rc == RC_FAIL && ls == None)
      ensures lPort !in ports || !Live(old(entries), Low16(ports[lPort].pPort)) ==>
                rc == RC_FAIL && entries == old(entries)
      ensures lPort in ports ==> Confined(old(entries), entries, Low16(ports[lPort].pPort))
      ensures lPort in ports && Live(old(entries), Low16(ports[lPort].pPort)) && !failed ==>
                var p := Low16(ports[lPort].pPort);
                var e := Entry(old(entries), p);
                && rc == RC_OK && Live(entries, p)
                && Entry(entries, p) == (if e.isChangeable then Settled(e.(isCopper := lPort in copper)) else e)
                && (!warmRestart && e.lPort == lPort ==> Entry(entries, p) == Poll(e, lPort in copper))
    {
      if lPort !in ports { return RC_FAIL, None; }
      var p := Low16(ports[lPort].pPort);
      var ok := Refresh(lPort, p);
      if !ok { return RC_FAIL, None; }
      ok := Call();
      if !ok || SaiOf(entries, p).None? { return RC_FAIL, None; }
      ok := Call(); // get_port_attribute
      if !ok { return RC_FAIL, None; }
      return RC_OK, Some(oper);
    }
  }
}
