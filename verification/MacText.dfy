/** Reading a MAC address from text (convertMacStringToAddr in esalSaiHost.cc). */
module MacText {
  import opened Sai

  const MAC_SIZE: nat := 6

  /** The value of a hexadecimal digit in either case; any other character counts as 0. */
  function HexVal(c: char): U8 {
    if '0' <= c <= '9' then c as int - '0' as int
    else if 'a' <= c <= 'f' then 10 + (c as int - 'a' as int)
    else if 'A' <= c <= 'F' then 10 + (c as int - 'A' as int)
    else 0
  }

  /** The colon-separated segments; there is always at least one. */
  function Split(s: string): (segs: seq<string>)
    ensures segs != []
  {
    if s == [] then [[]]
    else
      var n := |s| - 1;
      var segs := Split(s[..n]);
      if s[n] == ':' then segs + [[]]
      else segs[|segs| - 1 := segs[|segs| - 1] + [s[n]]]
  }

  /** Base-16 value of a segment. */
  function Value(seg: string): nat {
    if seg == [] then 0 else Value(seg[..|seg| - 1]) * 16 + HexVal(seg[|seg| - 1])
  }

  /** Byte k is the k-th segment's value modulo 256; missing segments are 0, those past the sixth ignored. */
  function ByteAt(s: string, k: nat): U8 {
    if k < |Split(s)| then Value(Split(s)[k]) % 256 else 0
  }

  function Parse(s: string): Mac {
    seq(MAC_SIZE, k requires 0 <= k < MAC_SIZE => ByteAt(s, k))
  }

  lemma ShiftIn(v: nat, d: U8)
    ensures (v % 256 * 16 + d) % 256 == (v * 16 + d) % 256
  {
    var q, r := v / 256, v % 256;
    assert v * 16 + d == (r * 16 + d) + 256 * (16 * q);
  }

  /** One more character: a colon opens a segment, anything else extends the last one. */
  lemma NextChar(s: string, i: nat, k: nat)
    requires i < |s|
    ensures |Split(s[..i + 1])| == |Split(s[..i])| + if s[i] == ':' then 1 else 0
    ensures s[i] == ':' || k != |Split(s[..i])| - 1 ==> ByteAt(s[..i + 1], k) == ByteAt(s[..i], k)
    ensures s[i] != ':' && k == |Split(s[..i])| - 1 ==>
              ByteAt(s[..i + 1], k) == (ByteAt(s[..i], k) * 16 + HexVal(s[i])) % 256
  {
    var t := s[..i + 1];
    assert t[..i] == s[..i] && t[i] == s[i];
    var segs := Split(s[..i]);
    if s[i] != ':' && k == |segs| - 1 {
      var seg := segs[k] + [s[i]];
      assert seg[..|seg| - 1] == segs[k];
      assert Value(seg) == Value(segs[k]) * 16 + HexVal(s[i]);
      ShiftIn(Value(segs[k]), HexVal(s[i]));
    }
  }

  /** One more digit in the low nibble. */
  function Shifted(b: U8, c: char): U8 {
    (b * 16 + HexVal(c)) % 256
  }

  /** The six bytes read so far. */
  ghost predicate Holds(a: seq<U8>, s: string) {
    |a| == MAC_SIZE && forall k :: 0 <= k < MAC_SIZE ==> a[k] == ByteAt(s, k)
  }

  /** A colon moves on to the next byte, and its 0 is shifted in there; every other character is shifted into the
      current one. */
  lemma HoldsNext(a: seq<U8>, s: string, i: nat, idx: nat)
    requires i < |s| && Holds(a, s[..i])
    requires idx == |Split(s[..i])| - 1 + if s[i] == ':' then 1 else 0
    ensures idx == |Split(s[..i + 1])| - 1
    ensures Holds(if idx < MAC_SIZE then a[idx := Shifted(a[idx], s[i])] else a, s[..i + 1])
  {
    NextChar(s, i, 0);
    if s[i] == ':' { ZeroPastEnd(s[..i], idx); }
    var a' := if idx < MAC_SIZE then a[idx := Shifted(a[idx], s[i])] else a;
    forall k | 0 <= k < MAC_SIZE ensures a'[k] == ByteAt(s[..i + 1], k) {
      NextChar(s, i, k);
    }
  }

  /** The driver's loop: an index that colons advance, and six bytes shifted into in place. */
  method ConvertMacStringToAddr(macString: string, macAddr: array<U8>)
    requires macAddr.Length == MAC_SIZE
    modifies macAddr
    ensures macAddr[..] == Parse(macString)
  {
    var macIdx := 0;
    for k := 0 to MAC_SIZE
      invariant forall j :: 0 <= j < k ==> macAddr[j] == 0
    {
      macAddr[k] := 0;
    }
    for i := 0 to |macString|
      invariant macIdx == |Split(macString[..i])| - 1
      invariant Holds(macAddr[..], macString[..i])
    {
      var ch := macString[i];
      ghost var before := macAddr[..];
      if ch == ':' {
        macIdx := macIdx + 1;
      }
      HoldsNext(before, macString, i, macIdx);
      if macIdx < MAC_SIZE {
        macAddr[macIdx] := Shifted(macAddr[macIdx], ch);
        assert macAddr[..] == before[macIdx := Shifted(before[macIdx], ch)];
      }
    }
    assert macString[..|macString|] == macString;
  }

  /** A byte whose segment has not been opened is 0, so shifting a colon's 0 into it changes nothing. */
  lemma ZeroPastEnd(s: string, k: nat)
    requires k == |Split(s)|
    ensures ByteAt(s, k) == 0 && HexVal(':') == 0
  {
  }

  const HEX := "0123456789abcdefABCDEF"

  /** Texts that agree on their colons and digit values read the same, byte by byte. */
  lemma {:induction false} SameReading(s: string, t: string, n: nat, k: nat)
    requires n <= |s| == |t|
    requires forall j :: 0 <= j < n ==> (s[j] == ':' <==> t[j] == ':') && HexVal(s[j]) == HexVal(t[j])
    ensures |Split(s[..n])| == |Split(t[..n])| && ByteAt(s[..n], k) == ByteAt(t[..n], k)
  {
    if n > 0 {
      SameReading(s, t, n - 1, k);
      SameNext(s, t, n - 1, k);
    }
  }

  lemma SameNext(s: string, t: string, i: nat, k: nat)
    requires i < |s| == |t| && (s[i] == ':' <==> t[i] == ':') && HexVal(s[i]) == HexVal(t[i])
    requires |Split(s[..i])| == |Split(t[..i])| && ByteAt(s[..i], k) == ByteAt(t[..i], k)
    ensures |Split(s[..i + 1])| == |Split(t[..i + 1])| && ByteAt(s[..i + 1], k) == ByteAt(t[..i + 1], k)
  {
    NextChar(s, i, k);
    NextChar(t, i, k);
  }

  /** A character that is neither a colon nor a hexadecimal digit reads as a zero digit. */
  lemma OtherIsZero(s: string, i: nat)
    requires i < |s| && s[i] != ':' && s[i] !in HEX
    ensures Parse(s[i := '0']) == Parse(s)
  {
    if HexVal(s[i]) > 0 { HexDigit(s[i]); }
    var t := s[i := '0'];
    assert t[..|s|] == t && s[..|s|] == s;
    forall k | 0 <= k < MAC_SIZE ensures ByteAt(t, k) == ByteAt(s, k) {
      SameReading(t, s, |s|, k);
    }
  }

  lemma HexDigit(c: char)
    requires HexVal(c) > 0
    ensures c in HEX
  {
    if '0' <= c <= '9' {
      assert HEX[c as int - '0' as int] == c;
    } else if 'a' <= c <= 'f' {
      assert HEX[10 + (c as int - 'a' as int)] == c;
    } else {
      assert HEX[16 + (c as int - 'A' as int)] == c;
    }
  }

  // Printing.

  function Digit(d: nat, upper: bool): char
    requires d < 16
  {
    if d < 10 then '0' + d as char
    else if upper then 'A' + (d - 10) as char
    else 'a' + (d - 10) as char
  }

  /** Two digits, each in the case asked for. */
  function Byte(b: U8, high: bool, low: bool): string {
    [Digit(b / 16, high), Digit(b % 16, low)]
  }

  /** Segments joined by colons. */
  function Join(segs: seq<string>): string
    requires segs != []
  {
    if |segs| == 1 then segs[0] else Join(segs[..|segs| - 1]) + ":" + segs[|segs| - 1]
  }

  function Bytes(bs: seq<U8>, upper: seq<bool>): seq<string>
    requires |upper| == 2 * |bs|
  {
    seq(|bs|, k requires 0 <= k < |bs| => Byte(bs[k], upper[2 * k], upper[2 * k + 1]))
  }

  /** Six bytes with colons between them; digit i is upper case when upper[i] says so. */
  function Print(bs: seq<U8>, upper: seq<bool>): string
    requires |bs| == MAC_SIZE && |upper| == 2 * MAC_SIZE
  {
    Join(Bytes(bs, upper))
  }

  lemma DigitValue(d: nat, upper: bool)
    requires d < 16
    ensures HexVal(Digit(d, upper)) == d && Digit(d, upper) != ':'
  {
  }

  lemma ByteValue(b: U8, high: bool, low: bool)
    ensures Value(Byte(b, high, low)) == b && ':' !in Byte(b, high, low)
  {
    var h, l := b / 16, b % 16;
    DigitValue(h, high);
    DigitValue(l, low);
    var seg := Byte(b, high, low);
    assert seg == [Digit(h, high), Digit(l, low)];
    assert seg[..1] == [seg[0]] && seg[..1][..0] == [];
    assert Value(seg[..1]) == h;
  }

  /** Text without colons extends the last segment. */
  lemma {:induction false} SplitTail(s: string, seg: string)
    requires ':' !in seg
    ensures Split(s + seg) == Split(s)[|Split(s)| - 1 := Split(s)[|Split(s)| - 1] + seg]
    decreases seg
  {
    var last := Split(s)[|Split(s)| - 1];
    if seg == [] {
      assert s + seg == s && last + seg == last;
    } else {
      var n := |seg| - 1;
      SplitTail(s, seg[..n]);
      assert seg[n] in seg;
      assert (s + seg)[..|s + seg| - 1] == s + seg[..n];
      assert last + seg[..n] + [seg[n]] == last + seg;
    }
  }

  lemma SplitColon(s: string)
    ensures Split(s + ":") == Split(s) + [[]]
  {
    assert (s + ":")[..|s|] == s;
  }

  lemma SplitAppend(s: string, seg: string)
    requires ':' !in seg
    ensures Split(s + ":" + seg) == Split(s) + [seg]
  {
    SplitColon(s);
    SplitTail(s + ":", seg);
    var segs := Split(s);
    assert (segs + [[]])[|segs|] == [] && [] + seg == seg;
    assert (segs + [[]])[|segs| := seg] == segs + [seg];
  }

  ghost predicate NoColons(segs: seq<string>) {
    forall seg :: seg in segs ==> ':' !in seg
  }

  /** Splitting undoes joining. */
  lemma {:induction false} SplitJoin(segs: seq<string>)
    requires segs != [] && NoColons(segs)
    ensures Split(Join(segs)) == segs
  {
    var n := |segs| - 1;
    assert segs[n] in segs;
    if n == 0 {
      SplitTail([], segs[0]);
      assert [] + segs[0] == segs[0];
    } else {
      SplitJoin(segs[..n]);
      SplitAppend(Join(segs[..n]), segs[n]);
      assert segs == segs[..n] + [segs[n]];
    }
  }

  /** Parsing undoes printing, for all six bytes and every choice of letter case. */
  lemma ParsePrint(bs: seq<U8>, upper: seq<bool>)
    requires |bs| == MAC_SIZE && |upper| == 2 * MAC_SIZE
    ensures Parse(Print(bs, upper)) == bs
  {
    var segs := Bytes(bs, upper);
    forall k | 0 <= k < |segs| ensures ':' !in segs[k] && Value(segs[k]) == bs[k] {
      ByteValue(bs[k], upper[2 * k], upper[2 * k + 1]);
    }
    assert NoColons(segs);
    SplitJoin(segs);
  }
}
