/** The append-only port table: 512 slots, the first `size` of them live (esalSaiPort.cc). */
module PortTable {
  import opened Sai
  import opened Slots

  const MAX_PORT_TABLE_SIZE := 512

  datatype Speed = Ten | Hundred | Gigabit | TwoAndHalfGigabit | TenGigabit
  datatype Duplex = Full | Half

  /** The rate arguments of VendorSetPortRate, saved with the port. */
  datatype Rate = Rate(autoneg: bool, speed: Speed, duplex: Duplex)

  /** What esalPortTableSetIfMode asks for when a port goes to 1000BASE-X. */
  const DEFAULT_RATE := Rate(true, Gigabit, Full)

  datatype PortEntry = PortEntry(
    portId: U16,
    portSai: Oid,
    isCopper: bool,
    isSgmii: bool,
    isChangeable: bool,
    lPort: U16,
    rate: Rate,
    adminState: bool)

  /** A slot no writer has reached: static storage is zeroed. */
  const BLANK := PortEntry(0, NULL_OID, false, false, false, 0, Rate(false, Ten, Full), false)

  /** Every live entry's id is derived from its handle. */
  ghost predicate WellFormed(s: seq<PortEntry>) {
    forall i :: 0 <= i < |s| ==> s[i].portId == PortIdOf(s[i].portSai)
  }

  /** Index of the first entry with this id, or |s|. */
  function FirstById(s: seq<PortEntry>, portId: U16): (i: nat)
    ensures i <= |s|
    ensures i < |s| ==> s[i].portId == portId
    ensures forall j :: 0 <= j < i ==> s[j].portId != portId
  {
    FirstWhere(s, (e: PortEntry) => e.portId == portId)
  }

  /** Index of the first entry with this handle, or |s|. */
  function FirstBySai(s: seq<PortEntry>, portSai: Oid): (i: nat)
    ensures i <= |s|
    ensures i < |s| ==> s[i].portSai == portSai
    ensures forall j :: 0 <= j < i ==> s[j].portSai != portSai
  {
    FirstWhere(s, (e: PortEntry) => e.portSai == portSai)
  }

  function SaiOf(s: seq<PortEntry>, portId: U16): Option<Oid> {
    var i := FirstById(s, portId);
    if i < |s| then Some(s[i].portSai) else None
  }

  function IdOf(s: seq<PortEntry>, portSai: Oid): Option<U16> {
    var i := FirstBySai(s, portSai);
    if i < |s| then Some(s[i].portId) else None
  }

  /** Id to handle and back is the identity, without assuming that ids or handles are unique. */
  lemma IdSaiRoundTrip(s: seq<PortEntry>, portId: U16)
    requires WellFormed(s) && SaiOf(s, portId).Some?
    ensures IdOf(s, SaiOf(s, portId).value) == Some(portId)
  {
    var i := FirstById(s, portId);
    var k := FirstBySai(s, s[i].portSai);
    assert k <= i;
    assert s[k].portId == PortIdOf(s[k].portSai);
  }

  /** Handle to id and back returns the first live handle with the same low 16 bits: the handle itself
      exactly when no earlier entry shares them. */
  lemma SaiIdRoundTrip(s: seq<PortEntry>, portSai: Oid)
    requires WellFormed(s) && IdOf(s, portSai).Some?
    ensures IdOf(s, portSai) == Some(Low16(portSai))
    ensures SaiOf(s, Low16(portSai)).Some?
    ensures SaiOf(s, Low16(portSai)) == Some(portSai)
         <==> forall j :: 0 <= j < FirstBySai(s, portSai) ==> Low16(s[j].portSai) != Low16(portSai)
  {
    PortIdIsLow16(portSai);
    var k := FirstBySai(s, portSai);
    var i := FirstById(s, Low16(portSai));
    assert s[k].portId == PortIdOf(s[k].portSai);
    assert i <= k;
    forall j | 0 <= j < k ensures s[j].portId == Low16(s[j].portSai) {
      assert s[j].portId == PortIdOf(s[j].portSai);
      PortIdIsLow16(s[j].portSai);
    }
    assert s[i].portId == PortIdOf(s[i].portSai);
    PortIdIsLow16(s[i].portSai);
    if i < k {
      assert Low16(s[i].portSai) == Low16(portSai);
      assert s[i].portSai != portSai;
    }
  }

  /** Distinct ids resolve to distinct handles. */
  lemma SaiOfInjective(s: seq<PortEntry>, p: U16, q: U16)
    requires WellFormed(s) && SaiOf(s, p).Some? && SaiOf(s, p) == SaiOf(s, q)
    ensures p == q
  {
    IdSaiRoundTrip(s, p);
    IdSaiRoundTrip(s, q);
  }

  /** Appending never changes a lookup that already succeeded. */
  lemma AppendKeepsLookups(s: seq<PortEntry>, e: PortEntry, portId: U16, portSai: Oid)
    ensures SaiOf(s, portId).Some? ==> SaiOf(s + [e], portId) == SaiOf(s, portId)
    ensures IdOf(s, portSai).Some? ==> IdOf(s + [e], portSai) == IdOf(s, portSai)
    ensures SaiOf(s, portId).None? ==> SaiOf(s + [e], portId) == if e.portId == portId then Some(e.portSai) else None
  {
    var t := s + [e];
    assert forall j :: 0 <= j < |s| ==> t[j] == s[j];
    var i, i' := FirstById(s, portId), FirstById(t, portId);
    var k, k' := FirstBySai(s, portSai), FirstBySai(t, portSai);
    if i < |s| {
      assert t[i] == s[i];
    } else {
      assert t[|s|] == e;
    }
    if k < |s| {
      assert t[k] == s[k];
    }
  }

  /** The entry a writer commits: two fields of a blank slot. */
  function Appended(portSai: Oid): PortEntry {
    BLANK.(portId := PortIdOf(portSai), portSai := portSai)
  }

  /** One entry for each handle of a list, in order. */
  function Filled(list: seq<Oid>): (entries: seq<PortEntry>)
    ensures |entries| == |list| && WellFormed(entries)
  {
    seq(|list|, i requires 0 <= i < |list| => Appended(list[i]))
  }

  /** An entry added for a port that was asked for by id serves that id only when the handle ends in it.
      VendorDisablePort adds the null handle for an unknown port, which serves id 0 alone. */
  lemma AddedHandleServes(s: seq<PortEntry>, portId: U16, portSai: Oid)
    requires SaiOf(s, portId).None?
    ensures SaiOf(s + [Appended(portSai)], portId).Some? <==> Low16(portSai) == portId
    ensures SaiOf(s + [Appended(NULL_OID)], portId).Some? <==> portId == 0
  {
    PortIdIsLow16(portSai);
    AppendKeepsLookups(s, Appended(portSai), portId, 0);
    AppendKeepsLookups(s, Appended(NULL_OID), portId, 0);
  }

  /** What the other tables see of the port table: the handle each known id resolves to. */
  type Handles = map<U16, Oid>

  ghost function HandlesOf(s: seq<PortEntry>): Handles {
    map p: U16 | SaiOf(s, p).Some? :: SaiOf(s, p).value
  }

  ghost predicate HandlesOk(h: Handles) {
    forall p :: p in h ==> PortIdOf(h[p]) == p
  }

  /** The effect of one more entry on the lookups. */
  function AddHandle(h: Handles, portSai: Oid): Handles {
    if PortIdOf(portSai) in h then h else h[PortIdOf(portSai) := portSai]
  }

  /** A handle resolves to the id it ends in. */
  lemma ResolvedOk(s: seq<PortEntry>, p: U16)
    requires WellFormed(s) && SaiOf(s, p).Some?
    ensures PortIdOf(SaiOf(s, p).value) == p
  {
    var i := FirstById(s, p);
    assert s[i].portId == PortIdOf(s[i].portSai);
  }

  /** One id's lookup after one more entry: the id answers as before, or takes the new handle if it ends in it. */
  lemma LookupFollows(s: seq<PortEntry>, portSai: Oid, p: U16)
    ensures SaiOf(s + [Appended(portSai)], p)
         == if SaiOf(s, p).None? && PortIdOf(portSai) == p then Some(portSai) else SaiOf(s, p)
  {
    AppendKeepsLookups(s, Appended(portSai), p, 0);
  }

  function At(h: Handles, p: U16): Option<Oid> {
    if p in h then Some(h[p]) else None
  }

  lemma HandlesAt(s: seq<PortEntry>, p: U16)
    ensures At(HandlesOf(s), p) == SaiOf(s, p)
  {
  }

  lemma AddHandleAt(h: Handles, portSai: Oid, p: U16)
    ensures At(AddHandle(h, portSai), p)
         == if At(h, p).None? && PortIdOf(portSai) == p then Some(portSai) else At(h, p)
  {
  }

  lemma SameHandles(h: Handles, h': Handles)
    requires forall p: U16 :: At(h, p) == At(h', p)
    ensures h == h'
  {
    assert forall p :: p in h ==> At(h, p) == Some(h[p]);
    assert forall p :: p in h' ==> At(h', p) == Some(h'[p]);
  }

  lemma HandlesResolve(s: seq<PortEntry>)
    requires WellFormed(s)
    ensures HandlesOk(HandlesOf(s))
  {
    forall p | p in HandlesOf(s) ensures PortIdOf(HandlesOf(s)[p]) == p {
      ResolvedOk(s, p);
    }
  }

  lemma HandlesFollow(s: seq<PortEntry>, portSai: Oid)
    requires WellFormed(s)
    ensures HandlesOk(HandlesOf(s))
    ensures HandlesOf(s + [Appended(portSai)]) == AddHandle(HandlesOf(s), portSai)
  {
    var h, t := HandlesOf(s), s + [Appended(portSai)];
    HandlesResolve(s);
    forall p: U16 ensures At(HandlesOf(t), p) == At(AddHandle(h, portSai), p) {
      HandlesAt(s, p);
      HandlesAt(t, p);
      LookupFollows(s, portSai, p);
      AddHandleAt(h, portSai, p);
    }
    SameHandles(HandlesOf(t), AddHandle(h, portSai));
  }

  class PortTable {
    const slots: array<PortEntry>
    var size: nat

    ghost predicate Valid()
      reads this, slots
    {
      slots.Length == MAX_PORT_TABLE_SIZE && size <= MAX_PORT_TABLE_SIZE &&
      WellFormed(slots[..size]) &&
      forall i :: size <= i < MAX_PORT_TABLE_SIZE ==> slots[i] == BLANK
    }

    ghost function Entries(): (s: seq<PortEntry>)
      requires Valid()
      reads this, slots
      ensures |s| == size
    {
      slots[..size]
    }

    constructor ()
      ensures Valid() && Entries() == [] && fresh(slots)
    {
      slots := new PortEntry[MAX_PORT_TABLE_SIZE](_ => BLANK);
      size := 0;
    }

    method FindId(portSai: Oid) returns (found: bool, portId: U16)
      requires Valid()
      ensures found <==> IdOf(Entries(), portSai).Some?
      ensures portId == if found then IdOf(Entries(), portSai).value else 0
    {
      var i := 0;
      while i < size
        invariant 0 <= i <= size
        invariant forall j :: 0 <= j < i ==> Entries()[j].portSai != portSai
      {
        if slots[i].portSai == portSai {
          assert Entries()[i].portSai == portSai;
          return true, slots[i].portId;
        }
        i := i + 1;
      }
      return false, 0;
    }

    /** The scan shared by every function that works on "the" entry of a port id. */
    method FindEntry(portId: U16) returns (i: nat)
      requires Valid()
      ensures i == FirstById(Entries(), portId)
    {
      i := 0;
      while i < size
        invariant 0 <= i <= size
        invariant forall j :: 0 <= j < i ==> Entries()[j].portId != portId
      {
        if slots[i].portId == portId {
          assert Entries()[i].portId == portId;
          return;
        }
        i := i + 1;
      }
    }

    method FindSai(portId: U16) returns (r: Option<Oid>)
      requires Valid()
      ensures r == SaiOf(Entries(), portId)
    {
      var i := FindEntry(portId);
      if i < size {
        assert slots[i] == Entries()[i];
        return Some(slots[i].portSai);
      }
      return None;
    }

    /** esalPortTableAddEntry with a handle in hand; the SAI query may fail before anything is written. */
    method AddEntry(portSai: Oid, queryOk: bool) returns (ok: bool)
      requires Valid()
      modifies this, slots
      ensures Valid()
      ensures ok <==> old(size) < MAX_PORT_TABLE_SIZE && queryOk
      ensures Entries() == if ok then old(Entries()) + [Appended(portSai)] else old(Entries())
    {
      if size >= MAX_PORT_TABLE_SIZE || !queryOk {
        return false;
      }
      slots[size] := slots[size].(portSai := portSai);
      slots[size] := slots[size].(portId := PortIdOf(portSai));
      size := size + 1;
      assert slots[..size] == old(slots[..size]) + [Appended(portSai)];
      return true;
    }
  }
}
