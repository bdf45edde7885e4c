/** The driver's copy of the forwarding database: 4096 slots driven by SAI notifications (esalSaiFdb.cc). */
module Fdb {
  import opened Sai
  import opened Slots
  import opened PortMap
  import Bridge

  const MAX_FDB_TABLE_SIZE := 4096

  // Attribute ids, from saifdb.h.
  const ENTRY_ATTR_TYPE := 0
  const ENTRY_ATTR_BRIDGE_PORT_ID := 3
  const FLUSH_ATTR_BRIDGE_PORT_ID := 0
  const FLUSH_ATTR_BV_ID := 1

  datatype FdbEntry = FdbEntry(mac: Mac, port: U16, vlanSai: Oid)
  datatype Attr = Attr(id: nat, oid: Oid)
  datatype Kind = Learned | Aged | Moved | Flushed | Other
  /** A notification, with the bridge-port table as it stands when the notification is handled. */
  datatype Event = Event(bridge: Bridge.Table, kind: Kind, mac: Mac, bvId: Oid, attrs: seq<Attr>)

  type Table = seq<FdbEntry>

  /** findPortIdInAttr: only the first attribute with the id is looked at. */
  function PortInAttr(bridge: Bridge.Table, id: nat, attrs: seq<Attr>): Option<U16> {
    var i := FirstWhere(attrs, (a: Attr) => a.id == id);
    if i < |attrs| then Bridge.PortIdFor(bridge, attrs[i].oid) else None
  }

  function VlanInAttr(attrs: seq<Attr>): Option<Oid> {
    var i := FirstWhere(attrs, (a: Attr) => a.id == FLUSH_ATTR_BV_ID);
    if i < |attrs| then Some(attrs[i].oid) else None
  }

  /** i is the first attribute with the id, or there is none and i is the length. */
  ghost predicate FirstAttr(attrs: seq<Attr>, id: nat, i: nat) {
    && i <= |attrs| && (i < |attrs| ==> attrs[i].id == id)
    && forall j :: 0 <= j < i ==> attrs[j].id != id
  }

  lemma AttrsRead(bridge: Bridge.Table, id: nat, attrs: seq<Attr>, i: nat)
    requires FirstAttr(attrs, id, i)
    ensures PortInAttr(bridge, id, attrs) == if i == |attrs| then None else Bridge.PortIdFor(bridge, attrs[i].oid)
    ensures id == FLUSH_ATTR_BV_ID ==> VlanInAttr(attrs) == if i == |attrs| then None else Some(attrs[i].oid)
  {
    assert FirstWhere(attrs, (a: Attr) => a.id == id) == i;
    assert id == FLUSH_ATTR_BV_ID ==> FirstWhere(attrs, (a: Attr) => a.id == FLUSH_ATTR_BV_ID) == i;
  }

  function KeyIndex(s: Table, mac: Mac, port: U16): (i: nat)
    ensures i <= |s|
    ensures i < |s| ==> s[i].mac == mac && s[i].port == port
    ensures forall j :: 0 <= j < i ==> s[j].mac != mac || s[j].port != port
  {
    FirstWhere(s, (e: FdbEntry) => e.mac == mac && e.port == port)
  }

  function MacIndex(s: Table, mac: Mac): (i: nat)
    ensures i <= |s|
    ensures i < |s| ==> s[i].mac == mac
    ensures forall j :: 0 <= j < i ==> s[j].mac != mac
  {
    FirstWhere(s, (e: FdbEntry) => e.mac == mac)
  }

  /** Order-preserving filter. */
  function Keep(s: Table, f: FdbEntry -> bool): Table {
    if s == [] then []
    else Keep(s[..|s| - 1], f) + if f(s[|s| - 1]) then [s[|s| - 1]] else []
  }

  function Learn(s: Table, mac: Mac, port: U16, vlanSai: Oid): Table {
    if KeyIndex(s, mac, port) < |s| || |s| >= MAX_FDB_TABLE_SIZE then s
    else s + [FdbEntry(mac, port, vlanSai)]
  }

  function Age(s: Table, mac: Mac, port: U16): Table {
    var i := KeyIndex(s, mac, port);
    if i < |s| then SwapOut(s, i) else s
  }

  function OnPort(p: nat): FdbEntry -> bool {
    (e: FdbEntry) => e.port == p
  }

  function NotOnPort(port: U16): FdbEntry -> bool {
    (e: FdbEntry) => e.port != port
  }

  function NotInVlan(vlanSai: Oid): FdbEntry -> bool {
    (e: FdbEntry) => e.vlanSai != vlanSai
  }

  /** One notification. A MOVE compares the addresses of two arrays, so it never finds an entry. */
  function Apply(s: Table, ev: Event): Table {
    match ev.kind
    case Learned =>
      (match PortInAttr(ev.bridge, ENTRY_ATTR_BRIDGE_PORT_ID, ev.attrs)
       case None => s
       case Some(port) => Learn(s, ev.mac, port, ev.bvId))
    case Aged =>
      (match PortInAttr(ev.bridge, ENTRY_ATTR_BRIDGE_PORT_ID, ev.attrs)
       case None => s
       case Some(port) => Age(s, ev.mac, port))
    case Moved => s
    case Flushed =>
      (match PortInAttr(ev.bridge, FLUSH_ATTR_BRIDGE_PORT_ID, ev.attrs)
       case Some(port) => Keep(s, NotOnPort(port))
       case None =>
         match VlanInAttr(ev.attrs)
         case Some(vlanSai) => Keep(s, NotInVlan(vlanSai))
         case None => [])
    case Other => s
  }

  function Run(s: Table, evs: seq<Event>): Table
    decreases evs
  {
    if evs == [] then s else Run(Apply(s, evs[0]), evs[1..])
  }

  /** What a MOVE is for: the first entry with that MAC goes to the new port. */
  function MeantMove(s: Table, ev: Event): Table {
    match PortInAttr(ev.bridge, ENTRY_ATTR_BRIDGE_PORT_ID, ev.attrs)
    case None => s
    case Some(port) =>
      var i := MacIndex(s, ev.mac);
      if i < |s| then s[i := s[i].(port := port)] else s
  }

  // The unordered specification: a bounded map from (mac, port) to VLAN.

  type Key = (Mac, U16)

  function KeyOf(e: FdbEntry): Key {
    (e.mac, e.port)
  }

  function Spec(m: map<Key, Oid>, ev: Event): map<Key, Oid> {
    match ev.kind
    case Learned =>
      (match PortInAttr(ev.bridge, ENTRY_ATTR_BRIDGE_PORT_ID, ev.attrs)
       case None => m
       case Some(port) => if (ev.mac, port) in m || |m| >= MAX_FDB_TABLE_SIZE then m else m[(ev.mac, port) := ev.bvId])
    case Aged =>
      (match PortInAttr(ev.bridge, ENTRY_ATTR_BRIDGE_PORT_ID, ev.attrs)
       case None => m
       case Some(port) => m - {(ev.mac, port)})
    case Flushed =>
      (match PortInAttr(ev.bridge, FLUSH_ATTR_BRIDGE_PORT_ID, ev.attrs)
       case Some(port) => map k | k in m && k.1 != port :: m[k]
       case None =>
         match VlanInAttr(ev.attrs)
         case Some(vlanSai) => map k | k in m && m[k] != vlanSai :: m[k]
         case None => map[])
    case Moved => m
    case Other => m
  }

  function SpecRun(m: map<Key, Oid>, evs: seq<Event>): map<Key, Oid>
    decreases evs
  {
    if evs == [] then m else SpecRun(Spec(m, evs[0]), evs[1..])
  }

  // The invariant and the refinement.

  ghost predicate UniqueKeys(s: Table) {
    forall i, j :: 0 <= i < j < |s| ==> KeyOf(s[i]) != KeyOf(s[j])
  }

  ghost predicate Inv(s: Table) {
    UniqueKeys(s) && |s| <= MAX_FDB_TABLE_SIZE
  }

  function AsMap(s: Table): map<Key, Oid> {
    if s == [] then map[]
    else AsMap(s[..|s| - 1])[KeyOf(s[|s| - 1]) := s[|s| - 1].vlanSai]
  }

  /** A table with these entries, in any order, represents this map. */
  ghost predicate Represents(s: Table, m: map<Key, Oid>) {
    && UniqueKeys(s)
    && (forall i :: 0 <= i < |s| ==> KeyOf(s[i]) in m && m[KeyOf(s[i])] == s[i].vlanSai)
    && (forall k :: k in m ==> exists i :: 0 <= i < |s| && KeyOf(s[i]) == k)
  }

  lemma AppendRepresents(s: Table, m: map<Key, Oid>, e: FdbEntry)
    requires Represents(s, m) && KeyOf(e) !in m
    ensures Represents(s + [e], m[KeyOf(e) := e.vlanSai])
  {
    var t := s + [e];
    assert forall k :: 0 <= k < |s| ==> t[k] == s[k] && KeyOf(s[k]) != KeyOf(e);
    assert t[|s|] == e;
    forall k | k in m ensures exists j :: 0 <= j < |t| && KeyOf(t[j]) == k {
      var j :| 0 <= j < |s| && KeyOf(s[j]) == k;
      assert KeyOf(t[j]) == k;
    }
  }

  lemma UniqueFront(s: Table)
    requires UniqueKeys(s) && s != []
    ensures UniqueKeys(s[..|s| - 1])
    ensures forall e :: e in s[..|s| - 1] ==> KeyOf(e) != KeyOf(s[|s| - 1])
  {
  }

  lemma {:induction false} AsMapRepresents(s: Table)
    requires UniqueKeys(s)
    ensures Represents(s, AsMap(s))
  {
    if s != [] {
      var front, last := s[..|s| - 1], s[|s| - 1];
      UniqueFront(s);
      AsMapRepresents(front);
      AppendRepresents(front, AsMap(front), last);
      assert s == front + [last];
    }
  }

  lemma {:induction false} AsMapSize(s: Table)
    requires UniqueKeys(s)
    ensures |AsMap(s)| == |s|
  {
    if s != [] {
      UniqueFront(s);
      AsMapSize(s[..|s| - 1]);
      AsMapRepresents(s[..|s| - 1]);
    }
  }

  lemma RepresentsAsMap(s: Table, m: map<Key, Oid>)
    requires Represents(s, m)
    ensures m == AsMap(s) && |m| == |s|
  {
    AsMapSize(s);
    AsMapRepresents(s);
    assert forall k :: k in m <==> k in AsMap(s);
    assert forall k :: k in m ==> m[k] == AsMap(s)[k];
  }

  lemma LearnRefines(s: Table, m: map<Key, Oid>, mac: Mac, port: U16, vlanSai: Oid)
    requires Represents(s, m) && Inv(s)
    ensures var t := Learn(s, mac, port, vlanSai);
            && Inv(t)
            && Represents(t, if (mac, port) in m || |m| >= MAX_FDB_TABLE_SIZE then m else m[(mac, port) := vlanSai])
  {
    RepresentsAsMap(s, m);
    var i := KeyIndex(s, mac, port);
    if i < |s| {
      assert KeyOf(s[i]) == (mac, port);
    } else {
      assert (mac, port) !in m;
      AppendRepresents(s, m, FdbEntry(mac, port, vlanSai));
    }
  }

  lemma AgeRefines(s: Table, m: map<Key, Oid>, mac: Mac, port: U16)
    requires Represents(s, m) && Inv(s)
    ensures var t := Age(s, mac, port); Inv(t) && Represents(t, m - {(mac, port)})
  {
    var i := KeyIndex(s, mac, port);
    var t := Age(s, mac, port);
    if i < |s| {
      assert KeyOf(s[i]) == (mac, port);
      forall k | k in m - {(mac, port)} ensures exists j :: 0 <= j < |t| && KeyOf(t[j]) == k {
        var j :| 0 <= j < |s| && KeyOf(s[j]) == k;
        assert KeyOf(t[if j == |s| - 1 then i else j]) == k;
      }
    } else {
      assert (mac, port) !in m;
    }
  }

  /** AGED takes out exactly one copy of the matching entry, and no other entry has that key. */
  lemma AgeExact(s: Table, mac: Mac, port: U16)
    requires UniqueKeys(s) && KeyIndex(s, mac, port) < |s|
    ensures multiset(Age(s, mac, port)) == multiset(s) - multiset{s[KeyIndex(s, mac, port)]}
    ensures forall e :: e in Age(s, mac, port) ==> KeyOf(e) != (mac, port)
  {
    var i := KeyIndex(s, mac, port);
    SwapOutMultiset(s, i);
    assert KeyOf(s[i]) == (mac, port);
  }

  lemma {:induction false} KeepRefines(s: Table, m: map<Key, Oid>, f: FdbEntry -> bool, m': map<Key, Oid>)
    requires Represents(s, m)
    requires forall k :: k in m' <==> k in m && f(FdbEntry(k.0, k.1, m[k]))
    requires forall k :: k in m' ==> m'[k] == m[k]
    ensures Represents(Keep(s, f), m')
  {
    KeepMembers(s, f);
    var t := Keep(s, f);
    forall i | 0 <= i < |t| ensures KeyOf(t[i]) in m' && m'[KeyOf(t[i])] == t[i].vlanSai {
      assert t[i] in t && t[i] in s;
      var j :| 0 <= j < |s| && s[j] == t[i];
      assert KeyOf(s[j]) in m;
    }
    forall k | k in m' ensures exists i :: 0 <= i < |t| && KeyOf(t[i]) == k {
      var j :| 0 <= j < |s| && KeyOf(s[j]) == k;
      assert s[j] == FdbEntry(k.0, k.1, m[k]);
      assert s[j] in t;
      var i :| 0 <= i < |t| && t[i] == s[j];
      assert KeyOf(t[i]) == k;
    }
  }

  lemma {:induction false} KeepMembers(s: Table, f: FdbEntry -> bool)
    ensures |Keep(s, f)| <= |s|
    ensures forall e :: e in Keep(s, f) <==> e in s && f(e)
    ensures UniqueKeys(s) ==> UniqueKeys(Keep(s, f))
  {
    if s != [] {
      var n := |s| - 1;
      var front := s[..n];
      KeepMembers(front, f);
      assert s == front + [s[n]];
      var t, u := Keep(s, f), Keep(front, f);
      if UniqueKeys(s) {
        assert forall i :: 0 <= i < n ==> front[i] == s[i];
        assert UniqueKeys(front);
        forall i | 0 <= i < |u| ensures KeyOf(u[i]) != KeyOf(s[n]) {
          assert u[i] in u && u[i] in front;
          var j :| 0 <= j < n && front[j] == u[i];
          assert KeyOf(s[j]) != KeyOf(s[n]);
        }
      }
    }
  }

  /** Flushing keeps the entries it keeps in table order. */
  lemma {:induction false} KeepPlaces(s: Table, f: FdbEntry -> bool)
    ensures Picks(Places(s, f), s, f) && |Keep(s, f)| == |Places(s, f)|
    ensures forall j :: 0 <= j < |Keep(s, f)| ==> Places(s, f)[j] < |s| && Keep(s, f)[j] == s[Places(s, f)[j]]
    decreases |s|
  {
    PlacesPick(s, f);
    if s != [] { KeepPlaces(s[..|s| - 1], f); }
  }

  lemma FlushPortRefines(s: Table, m: map<Key, Oid>, port: U16)
    requires Represents(s, m)
    ensures Represents(Keep(s, NotOnPort(port)), map k | k in m && k.1 != port :: m[k])
  {
    KeepRefines(s, m, NotOnPort(port), map k | k in m && k.1 != port :: m[k]);
  }

  lemma FlushVlanRefines(s: Table, m: map<Key, Oid>, vlanSai: Oid)
    requires Represents(s, m)
    ensures Represents(Keep(s, NotInVlan(vlanSai)), map k | k in m && m[k] != vlanSai :: m[k])
  {
    KeepRefines(s, m, NotInVlan(vlanSai), map k | k in m && m[k] != vlanSai :: m[k]);
  }

  lemma FlushRefines(s: Table, m: map<Key, Oid>, ev: Event)
    requires Represents(s, m) && Inv(s) && ev.kind == Flushed
    ensures Inv(Apply(s, ev)) && Represents(Apply(s, ev), Spec(m, ev))
  {
    var port, vlan := PortInAttr(ev.bridge, FLUSH_ATTR_BRIDGE_PORT_ID, ev.attrs), VlanInAttr(ev.attrs);
    if port.Some? {
      FlushPortRefines(s, m, port.value);
      KeepMembers(s, NotOnPort(port.value));
    } else if vlan.Some? {
      FlushVlanRefines(s, m, vlan.value);
      KeepMembers(s, NotInVlan(vlan.value));
    }
  }

  /** One notification, in-place table against map. */
  lemma ApplyRefines(s: Table, m: map<Key, Oid>, ev: Event)
    requires Represents(s, m) && Inv(s)
    ensures Inv(Apply(s, ev)) && Represents(Apply(s, ev), Spec(m, ev))
  {
    var port := PortInAttr(ev.bridge, ENTRY_ATTR_BRIDGE_PORT_ID, ev.attrs);
    match ev.kind
    case Learned => if port.Some? { LearnRefines(s, m, ev.mac, port.value, ev.bvId); }
    case Aged => if port.Some? { AgeRefines(s, m, ev.mac, port.value); }
    case Flushed => FlushRefines(s, m, ev);
    case Moved =>
    case Other =>
  }

  /** Every stream of notifications from the empty table: no two entries share a key, the table stays within
      bounds, and as a set of entries it is what the unordered specification says. */
  lemma {:induction false} RunRefines(s: Table, m: map<Key, Oid>, evs: seq<Event>)
    requires Represents(s, m) && Inv(s)
    ensures Inv(Run(s, evs)) && AsMap(Run(s, evs)) == SpecRun(m, evs)
    decreases evs
  {
    if evs == [] {
      RepresentsAsMap(s, m);
    } else {
      ApplyRefines(s, m, evs[0]);
      RunRefines(Apply(s, evs[0]), Spec(m, evs[0]), evs[1..]);
    }
  }

  lemma RunFromEmpty(evs: seq<Event>)
    ensures Inv(Run([], evs)) && AsMap(Run([], evs)) == SpecRun(map[], evs)
  {
    RunRefines([], map[], evs);
  }

  /** saifdb.h describes the consolidated flush notification with entry attribute ids: the entry type under id
      0 and the bridge port under id 3. The driver reads flush attribute ids, where 0 is the bridge port. A
      flush notification in the documented form therefore empties the whole table, whichever port it names,
      unless the type value happens to be a live bridge-port handle. */
  lemma DocumentedFlush(s: Table, bridge: Bridge.Table, mac: Mac, bvId: Oid, entryType: Oid, bridgePort: Oid)
    ensures var attrs := [Attr(ENTRY_ATTR_TYPE, entryType), Attr(ENTRY_ATTR_BRIDGE_PORT_ID, bridgePort)];
            Apply(s, Event(bridge, Flushed, mac, bvId, attrs))
              == match Bridge.PortIdFor(bridge, entryType) case None => [] case Some(p) => Keep(s, NotOnPort(p))
  {
    var attrs := [Attr(ENTRY_ATTR_TYPE, entryType), Attr(ENTRY_ATTR_BRIDGE_PORT_ID, bridgePort)];
    assert attrs[0].id == FLUSH_ATTR_BRIDGE_PORT_ID;
    assert FirstWhere(attrs, (a: Attr) => a.id == FLUSH_ATTR_BRIDGE_PORT_ID) == 0;
    assert forall i :: 0 <= i < |attrs| ==> attrs[i].id != FLUSH_ATTR_BV_ID;
  }

  /** A MOVE leaves what it is meant to leave exactly when its port is unknown, when the MAC is not in the table, or
      when the first entry with that MAC is on that port already. */
  lemma MoveMissed(s: Table, ev: Event)
    requires ev.kind == Moved
    ensures var port, i := PortInAttr(ev.bridge, ENTRY_ATTR_BRIDGE_PORT_ID, ev.attrs), MacIndex(s, ev.mac);
            Apply(s, ev) == MeantMove(s, ev) <==> port.None? || i == |s| || s[i].port == port.value
  {
    var port, i := PortInAttr(ev.bridge, ENTRY_ATTR_BRIDGE_PORT_ID, ev.attrs), MacIndex(s, ev.mac);
    if port.Some? && i < |s| {
      assert MeantMove(s, ev)[i] == s[i].(port := port.value);
    }
  }

  // What each notification does, kind by kind.

  /** The port a notification names: that of its first attribute with this id. */
  ghost predicate Names(ev: Event, id: nat, port: Option<U16>) {
    exists i: nat :: FirstAttr(ev.attrs, id, i)
      && port == if i == |ev.attrs| then None else Bridge.PortIdFor(ev.bridge, ev.attrs[i].oid)
  }

  lemma NamesRead(ev: Event, id: nat, port: Option<U16>)
    requires Names(ev, id, port)
    ensures PortInAttr(ev.bridge, id, ev.attrs) == port
  {
    var i: nat :| FirstAttr(ev.attrs, id, i)
      && port == if i == |ev.attrs| then None else Bridge.PortIdFor(ev.bridge, ev.attrs[i].oid);
    AttrsRead(ev.bridge, id, ev.attrs, i);
  }

  ghost predicate Has(s: Table, mac: Mac, port: U16) {
    exists i :: 0 <= i < |s| && s[i].mac == mac && s[i].port == port
  }

  /** LEARNED appends one entry for a known port, unless MAC and port are there already or the table is full. */
  lemma LearnedAnswer(s: Table, ev: Event, port: Option<U16>)
    requires ev.kind == Learned && Names(ev, ENTRY_ATTR_BRIDGE_PORT_ID, port)
    ensures var t := Apply(s, ev);
            if port.None? || Has(s, ev.mac, port.value) || |s| >= MAX_FDB_TABLE_SIZE then t == s
            else
              && |t| == |s| + 1 && t[..|s|] == s
              && t[|s|].mac == ev.mac && t[|s|].port == port.value && t[|s|].vlanSai == ev.bvId
  {
    NamesRead(ev, ENTRY_ATTR_BRIDGE_PORT_ID, port);
    if port.Some? {
      assert Has(s, ev.mac, port.value) <==> KeyIndex(s, ev.mac, port.value) < |s|;
    }
  }

  /** AGED takes out one entry with the MAC and the port, if both are known, and no other. */
  lemma AgedAnswer(s: Table, ev: Event, port: Option<U16>)
    requires ev.kind == Aged && Names(ev, ENTRY_ATTR_BRIDGE_PORT_ID, port)
    ensures var t := Apply(s, ev);
            if port.None? || !Has(s, ev.mac, port.value) then t == s
            else exists k ::
              && 0 <= k < |s| && s[k].mac == ev.mac && s[k].port == port.value
              && multiset(t) == multiset(s) - multiset{s[k]}
  {
    NamesRead(ev, ENTRY_ATTR_BRIDGE_PORT_ID, port);
    if port.Some? {
      var k := KeyIndex(s, ev.mac, port.value);
      assert Has(s, ev.mac, port.value) <==> k < |s|;
      if k < |s| { SwapOutMultiset(s, k); }
    }
  }

  /** FLUSHED keeps the entries off the port it names; or, when it names no known port, those outside the VLAN of its
      first attribute for it; or, without one, none. */
  lemma FlushedAnswer(s: Table, ev: Event, port: Option<U16>, j: nat)
    requires ev.kind == Flushed && Names(ev, FLUSH_ATTR_BRIDGE_PORT_ID, port)
    requires FirstAttr(ev.attrs, FLUSH_ATTR_BV_ID, j)
    ensures forall e :: e in Apply(s, ev) <==>
              && e in s
              && if port.Some? then e.port != port.value
                 else j < |ev.attrs| && e.vlanSai != ev.attrs[j].oid
  {
    NamesRead(ev, FLUSH_ATTR_BRIDGE_PORT_ID, port);
    AttrsRead(ev.bridge, FLUSH_ATTR_BV_ID, ev.attrs, j);
    if port.Some? {
      KeepMembers(s, NotOnPort(port.value));
    } else if j < |ev.attrs| {
      KeepMembers(s, NotInVlan(ev.attrs[j].oid));
    }
  }

  /** No other notification changes anything. */
  lemma OtherAnswer(s: Table, ev: Event)
    requires ev.kind == Moved || ev.kind == Other
    ensures Apply(s, ev) == s
  {
  }

  // Replays of LEARNED events.

  ghost predicate AllLearned(evs: seq<Event>) {
    forall i :: 0 <= i < |evs| ==> evs[i].kind == Learned
  }

  /** The event can change nothing any more: its port is unknown, its key is there, or the table is full. */
  ghost predicate Settled(s: Table, ev: Event) {
    Apply(s, ev) == s
  }

  lemma SettledStays(s: Table, ev: Event, other: Event)
    requires ev.kind == Learned && other.kind == Learned && Settled(s, ev)
    ensures s <= Apply(s, other) && Settled(Apply(s, other), ev)
  {
    var t := Apply(s, other);
    var port := PortInAttr(ev.bridge, ENTRY_ATTR_BRIDGE_PORT_ID, ev.attrs);
    if port.Some? && |s| < MAX_FDB_TABLE_SIZE {
      var i := KeyIndex(s, ev.mac, port.value);
      assert i < |s| && t[i] == s[i];
    }
  }

  lemma LearnSettles(s: Table, ev: Event)
    requires ev.kind == Learned
    ensures Settled(Apply(s, ev), ev)
  {
    var t := Apply(s, ev);
    if t != s {
      assert t[|s|].mac == ev.mac;
    }
  }

  lemma {:induction false} SettledThroughRun(s: Table, ev: Event, evs: seq<Event>)
    requires ev.kind == Learned && AllLearned(evs) && Settled(s, ev)
    ensures s <= Run(s, evs) && Settled(Run(s, evs), ev)
    decreases evs
  {
    if evs != [] {
      SettledStays(s, ev, evs[0]);
      SettledThroughRun(Apply(s, evs[0]), ev, evs[1..]);
    }
  }

  lemma {:induction false} RunSettles(s: Table, evs: seq<Event>, i: nat)
    requires AllLearned(evs) && i < |evs|
    ensures Settled(Run(s, evs), evs[i])
    decreases evs
  {
    var t := Apply(s, evs[0]);
    if i == 0 {
      LearnSettles(s, evs[0]);
      SettledThroughRun(t, evs[0], evs[1..]);
    } else {
      RunSettles(t, evs[1..], i - 1);
    }
  }

  lemma {:induction false} SettledRun(t: Table, evs: seq<Event>)
    requires forall i :: 0 <= i < |evs| ==> Settled(t, evs[i])
    ensures Run(t, evs) == t
    decreases evs
  {
    if evs != [] {
      assert Settled(t, evs[0]);
      SettledRun(t, evs[1..]);
    }
  }

  /** Replaying a list of LEARNED events again, the whole of it or any leading part, changes nothing: for any
      starting table, any list, and even when the table fills up partway. */
  lemma ReplayIdempotent(s: Table, evs: seq<Event>, n: nat)
    requires AllLearned(evs) && n <= |evs|
    ensures Run(Run(s, evs), evs[..n]) == Run(s, evs)
  {
    var t := Run(s, evs);
    forall i | 0 <= i < n ensures Settled(t, evs[..n][i]) {
      RunSettles(s, evs, i);
    }
    SettledRun(t, evs[..n]);
  }

  // Reading the table back.

  /** The MACs on port p among the first n entries, in table order. */
  function MacsOn(s: Table, p: nat, n: nat): (macs: seq<Mac>)
    requires n <= |s|
    ensures |macs| <= n
  {
    if n == 0 then []
    else MacsOn(s, p, n - 1) + if s[n - 1].port == p then [s[n - 1].mac] else []
  }

  /** Exactly the MACs of the entries on port p, in table order. */
  lemma {:induction false} MacsOnPlaces(s: Table, p: nat, n: nat)
    requires n <= |s|
    ensures var idx := Places(s[..n], OnPort(p));
            && |MacsOn(s, p, n)| == |idx|
            && forall j :: 0 <= j < |idx| ==> idx[j] < n && MacsOn(s, p, n)[j] == s[idx[j]].mac
    decreases n
  {
    if n > 0 {
      MacsOnPlaces(s, p, n - 1);
      assert s[..n][..n - 1] == s[..n - 1] && s[..n][n - 1] == s[n - 1];
    }
  }

  /** idx lists in increasing order exactly the places of port p. */
  ghost predicate PlacesOf(idx: seq<nat>, s: Table, p: nat) {
    && (forall a, b :: 0 <= a < b < |idx| ==> idx[a] < idx[b])
    && (forall i :: i in idx ==> i < |s| && s[i].port == p)
    && (forall i :: 0 <= i < |s| && s[i].port == p ==> i in idx)
  }

  /** macs are the MACs at the first of these places, up to a limit. */
  ghost predicate FirstAt(idx: seq<nat>, s: Table, macs: seq<Mac>, limit: nat) {
    && |macs| == (if |idx| <= limit then |idx| else limit)
    && forall j :: 0 <= j < |macs| ==> idx[j] < |s| && macs[j] == s[idx[j]].mac
  }

  /** What VendorGetMacTbl reports, without the walk that finds it: the MACs at the first places of port p, up to one
      more than the room in the caller's buffer, which counts as 256 at least. */
  ghost predicate Reports(s: Table, p: nat, room: U16, macs: seq<Mac>) {
    exists idx: seq<nat> ::
      PlacesOf(idx, s, p) && FirstAt(idx, s, macs, (if room / 6 > 256 then room / 6 else 256) + 1)
  }

  lemma FirstMacsAt(s: Table, p: nat, maxMacs: nat) returns (idx: seq<nat>)
    ensures PlacesOf(idx, s, p) && FirstAt(idx, s, FirstMacs(MacsOn(s, p, |s|), maxMacs), maxMacs + 1)
  {
    idx := Places(s, OnPort(p));
    PlacesPick(s, OnPort(p));
    MacsOnPlaces(s, p, |s|);
    assert s[..|s|] == s;
  }

  lemma FirstMacsReported(s: Table, p: nat, room: U16)
    ensures Reports(s, p, room, FirstMacs(MacsOn(s, p, |s|), MaxMacs(room)))
  {
    var idx := FirstMacsAt(s, p, MaxMacs(room));
  }

  /** What is found first stays in front. */
  lemma {:induction false} MacsOnPrefix(s: Table, p: nat, k: nat, n: nat)
    requires k <= n <= |s|
    ensures MacsOn(s, p, k) <= MacsOn(s, p, n)
  {
    if k < n { MacsOnPrefix(s, p, k, n - 1); }
  }

  function MaxMacs(room: U16): nat {
    if room / 6 > 256 then room / 6 else 256
  }

  /** One more MAC than asked for: the loop counts after it has copied. */
  function FirstMacs(all: seq<Mac>, maxMacs: nat): seq<Mac> {
    if |all| <= maxMacs + 1 then all else all[..maxMacs + 1]
  }

  // The driver's code.

  class FdbTable {
    const table: array<FdbEntry>
    var size: nat

    ghost predicate Valid()
      reads this, table
    {
      table.Length == MAX_FDB_TABLE_SIZE && size <= MAX_FDB_TABLE_SIZE
    }

    ghost function Entries(): (s: Table)
      requires Valid()
      reads this, table
      ensures |s| == size
    {
      table[..size]
    }

    constructor ()
      ensures Valid() && Entries() == [] && fresh(table)
    {
      table := new FdbEntry[MAX_FDB_TABLE_SIZE](_ => FdbEntry([0, 0, 0, 0, 0, 0], 0, NULL_OID));
      size := 0;
    }

    method FindPortIdInAttr(bridge: Bridge.Table, id: nat, attrs: seq<Attr>) returns (r: Option<U16>)
      ensures r == PortInAttr(bridge, id, attrs)
    {
      for i := 0 to |attrs|
        invariant forall j :: 0 <= j < i ==> attrs[j].id != id
      {
        if attrs[i].id == id {
          return Bridge.PortIdFor(bridge, attrs[i].oid);
        }
      }
      return None;
    }

    method FindVlanSaiInAttr(attrs: seq<Attr>) returns (r: Option<Oid>)
      ensures r == VlanInAttr(attrs)
    {
      for i := 0 to |attrs|
        invariant forall j :: 0 <= j < i ==> attrs[j].id != FLUSH_ATTR_BV_ID
      {
        if attrs[i].id == FLUSH_ATTR_BV_ID {
          return Some(attrs[i].oid);
        }
      }
      return None;
    }

    method FindKey(mac: Mac, port: U16) returns (i: nat)
      requires Valid()
      ensures i == KeyIndex(Entries(), mac, port)
    {
      i := 0;
      while i < size
        invariant 0 <= i <= size
        invariant forall j :: 0 <= j < i ==> Entries()[j].mac != mac || Entries()[j].port != port
      {
        if table[i].port == port && table[i].mac == mac {
          assert Entries()[i] == table[i];
          return;
        }
        i := i + 1;
      }
    }

    /** Compaction in place: the entries to keep slide down over the ones to drop. */
    method Compact(f: FdbEntry -> bool)
      requires Valid()
      modifies this, table
      ensures Valid() && Entries() == Keep(old(Entries()), f)
    {
      var cpyIdx := 0;
      ghost var s := Entries();
      for i := 0 to size
        invariant cpyIdx <= i <= size == |s|
        invariant table[..cpyIdx] == Keep(s[..i], f)
        invariant forall k :: i <= k < size ==> table[k] == s[k]
      {
        assert s[..i + 1][..i] == s[..i] && s[..i + 1][i] == s[i];
        if f(table[i]) {
          table[cpyIdx] := table[i];
          cpyIdx := cpyIdx + 1;
          assert table[..cpyIdx] == table[..cpyIdx - 1] + [s[i]];
        }
      }
      assert s[..size] == s;
      size := cpyIdx;
    }

    method LearnEntry(mac: Mac, port: U16, vlanSai: Oid)
      requires Valid()
      modifies this, table
      ensures Valid() && Entries() == Learn(old(Entries()), mac, port, vlanSai)
    {
      var i := FindKey(mac, port);
      if i < size { return; }
      if size < MAX_FDB_TABLE_SIZE {
        table[size] := FdbEntry(mac, port, vlanSai);
        size := size + 1;
        assert Entries() == old(Entries()) + [FdbEntry(mac, port, vlanSai)];
      }
    }

    method AgeEntry(mac: Mac, port: U16)
      requires Valid()
      modifies this, table
      ensures Valid() && Entries() == Age(old(Entries()), mac, port)
    {
      var i := FindKey(mac, port);
      if i < size {
        table[i] := table[size - 1];
        size := size - 1;
        assert Entries() == SwapOut(old(Entries()), i);
      }
    }

    method AlterForwardingTable(ev: Event)
      requires Valid()
      modifies this, table
      ensures Valid() && Entries() == Apply(old(Entries()), ev)
    {
      match ev.kind {
        case Learned =>
          var port := FindPortIdInAttr(ev.bridge, ENTRY_ATTR_BRIDGE_PORT_ID, ev.attrs);
          if port.None? { return; }
          LearnEntry(ev.mac, port.value, ev.bvId);
        case Aged =>
          var port := FindPortIdInAttr(ev.bridge, ENTRY_ATTR_BRIDGE_PORT_ID, ev.attrs);
          if port.None? { return; }
          AgeEntry(ev.mac, port.value);
        case Moved => // the addresses of two arrays never agree
        case Flushed =>
          var port := FindPortIdInAttr(ev.bridge, FLUSH_ATTR_BRIDGE_PORT_ID, ev.attrs);
          if port.Some? {
            Compact(NotOnPort(port.value));
          } else {
            var vlan := FindVlanSaiInAttr(ev.attrs);
            if vlan.Some? {
              Compact(NotInVlan(vlan.value));
            } else {
              size := 0;
            }
          }
        case Other =>
      }
    }

    /** onFdbEvent: a batch of notifications. */
    method OnFdbEvent(evs: seq<Event>)
      requires Valid()
      modifies this, table
      ensures Valid() && Entries() == Run(old(Entries()), evs)
    {
      for i := 0 to |evs|
        invariant Valid()
        invariant Run(old(Entries()), evs) == Run(Entries(), evs[i..])
      {
        assert evs[i..][1..] == evs[i + 1..];
        AlterForwardingTable(evs[i]);
      }
    }

    /** The 16-bit byte count after one more MAC. */
    method AddSixBytes(numMacs: U16) returns (r: U16)
      ensures numMacs + 6 < 0x1_0000 ==> r == numMacs + 6
    {
      r := Low16(numMacs + 6);
    }

    /** The buffer holds, one after the other, the MACs of the first entries on the port, at most one more than
        the room asked for, and the 16-bit byte count does not wrap. An unknown logical port changes nothing. */
    method VendorGetMacTbl(ports: PortMap, lPort: U16, room: U16) returns (rc: int, numMacs: U16, macs: seq<Mac>)
      requires Valid()
      ensures rc == if lPort in ports then RC_OK else RC_FAIL
      ensures lPort in ports ==> Reports(Entries(), ports[lPort].pPort, room, macs) && numMacs as int == 6 * |macs|
      ensures lPort !in ports ==> numMacs == room && macs == []
    {
      if lPort !in ports { return RC_FAIL, room, []; }
      rc := RC_OK;
      numMacs, macs := CopyMacs(ports[lPort].pPort, MaxMacs(room));
      FirstMacsReported(Entries(), ports[lPort].pPort, room);
    }

    method CopyMacs(pPort: U32, maxMacs: nat) returns (numMacs: U16, macs: seq<Mac>)
      requires Valid()
      ensures macs == FirstMacs(MacsOn(Entries(), pPort, size), maxMacs) && numMacs as int == 6 * |macs|
    {
      numMacs, macs := 0, [];
      var curMac := 0;
      ghost var s := Entries();
      for i := 0 to size
        invariant curMac == |macs| <= maxMacs && numMacs == 6 * curMac
        invariant macs == MacsOn(s, pPort, i)
      {
        assert s[i] == table[i];
        if table[i].port == pPort {
          macs := macs + [table[i].mac]; // memcpy to macs + numMacs
          numMacs := AddSixBytes(numMacs);
          curMac := curMac + 1;
          if curMac - 1 >= maxMacs {
            MacsOnPrefix(s, pPort, i + 1, size);
            return;
          }
        }
      }
    }
  }
}
