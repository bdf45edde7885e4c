/** The logical/physical port translation read from sai.cfg (esalSaiUtils.cc). */
module PortMap {
  import opened Sai
  import Ordered

  datatype PortInfo = PortInfo(devId: U32, pPort: U32, changeable: bool, l2CommsProvDisable: bool)

  /** phyPortInfoMap_, keyed by logical port. */
  type PortMap = map<U32, PortInfo>

  function GetPhysical(m: PortMap, lPort: U32): Option<U32> {
    if lPort in m then Some(m[lPort].pPort) else None
  }

  function Candidates(m: PortMap, dev: U32, pPort: U32): set<nat> {
    set l | l in m && m[l].devId == dev && m[l].pPort == pPort
  }

  /** The least logical port on the given device and physical port. */
  function Logical(m: PortMap, dev: U32, pPort: U32): Option<nat> {
    var c := Candidates(m, dev, pPort);
    if c == {} then None else Some(Ordered.Min(c))
  }

  predicate IsCandidate(m: PortMap, dev: U32, pPort: U32, l: nat) {
    l in m && m[l].devId == dev && m[l].pPort == pPort
  }

  lemma LogicalIs(m: PortMap, dev: U32, pPort: U32, l: nat)
    requires IsCandidate(m, dev, pPort, l)
    requires forall k :: IsCandidate(m, dev, pPort, k) ==> l <= k
    ensures Logical(m, dev, pPort) == Some(l)
  {
    assert l in Candidates(m, dev, pPort);
    assert IsCandidate(m, dev, pPort, Logical(m, dev, pPort).value);
  }

  lemma LogicalIsNone(m: PortMap, dev: U32, pPort: U32)
    requires forall k :: !IsCandidate(m, dev, pPort, k)
    ensures Logical(m, dev, pPort).None?
  {
    forall l ensures l !in Candidates(m, dev, pPort) {
      assert !IsCandidate(m, dev, pPort, l);
    }
  }

  /** The loop over the ordered map, stopping at the first match. */
  method GetLogicalPort(m: PortMap, dev: U32, pPort: U32) returns (r: Option<nat>)
    ensures r == Logical(m, dev, pPort)
    ensures r.Some? ==> IsCandidate(m, dev, pPort, r.value) && GetPhysical(m, r.value) == Some(pPort)
    ensures forall l :: IsCandidate(m, dev, pPort, l) ==> r.Some? && r.value <= l
  {
    var keys := Ordered.Sorted(m.Keys);
    var i := 0;
    while i < |keys|
      invariant 0 <= i <= |keys|
      invariant forall j :: 0 <= j < i ==> !IsCandidate(m, dev, pPort, keys[j])
    {
      var l := keys[i];
      assert l in keys;
      if m[l].devId == dev && m[l].pPort == pPort {
        forall k | IsCandidate(m, dev, pPort, k) ensures l <= k {
          assert k in m.Keys && k in keys;
        }
        LogicalIs(m, dev, pPort, l);
        return Some(l);
      }
      i := i + 1;
    }
    forall k ensures !IsCandidate(m, dev, pPort, k) {
      assert k in m.Keys ==> k in keys;
    }
    LogicalIsNone(m, dev, pPort);
    return None;
  }

  /** What a saved port id becomes when warm boot translates it to a logical port, narrows that to 16 bits
      and hands it back to the public API. */
  function Replayed(m: PortMap, pPort: U16): Option<U32> {
    match Logical(m, 0, pPort)
    case None => None
    case Some(l) => GetPhysical(m, Low16(l))
  }

  /** A saved port survives exactly when its least logical name fits in 16 bits, or happens to share its
      low 16 bits with another name of the same physical port. */
  lemma ReplayedIsIdentity(m: PortMap, pPort: U16)
    requires Logical(m, 0, pPort).Some?
    ensures Logical(m, 0, pPort).value < 0x1_0000 ==> Replayed(m, pPort) == Some(pPort)
    ensures Replayed(m, pPort) == Some(pPort)
         <==> Low16(Logical(m, 0, pPort).value) in m && m[Low16(Logical(m, 0, pPort).value)].pPort == pPort
  {
    var l := Logical(m, 0, pPort).value;
    assert l in Candidates(m, 0, pPort);
  }
}
