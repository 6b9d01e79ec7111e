/** UUIDs as their big-endian 128-bit value, with the byte order and the canonical text
    that the service relies on. */
module Uuids {

  datatype Option<+T> = None | Some(value: T)

  const SPAN: nat := 0x1_0000_0000_0000_0000_0000_0000_0000_0000

  type Uuid = u: nat | u < SPAN

  const NIL: Uuid := 0

  function Pow(base: nat, width: nat): nat {
    if width == 0 then 1 else base * Pow(base, width - 1)
  }

  function Quot(n: nat, base: nat): nat
    requires base >= 2
  {
    n / base
  }

  function Rem(n: nat, base: nat): (r: nat)
    requires base >= 2
    ensures r < base
  {
    n % base
  }

  /** The `width` big-endian digits of `n`. */
  function Digits(n: nat, base: nat, width: nat): (ds: seq<nat>)
    requires base >= 2
    ensures |ds| == width
    ensures forall i :: 0 <= i < width ==> ds[i] < base
    decreases width
  {
    if width == 0 then [] else Digits(Quot(n, base), base, width - 1) + [Rem(n, base)]
  }

  function Value(ds: seq<nat>, base: nat): nat {
    if ds == [] then 0 else Value(ds[..|ds| - 1], base) * base + ds[|ds| - 1]
  }

  lemma Divide(n: nat, base: nat)
    requires base >= 2
    ensures n == Quot(n, base) * base + Rem(n, base)
  {
  }

  lemma Scale(x: nat, y: nat, base: nat)
    ensures x >= y ==> x * base >= y * base
  {
  }

  lemma DivBelow(n: nat, base: nat, bound: nat)
    requires base >= 2 && n < base * bound
    ensures Quot(n, base) < bound
  {
    Divide(n, base);
    hide Quot;
    hide Rem;
    Scale(Quot(n, base), bound, base);
  }

  /** `n` has no digit beyond the first `width`. */
  predicate HasWidth(n: nat, base: nat, width: nat)
    requires base >= 2
    decreases width
  {
    if width == 0 then n == 0 else HasWidth(Quot(n, base), base, width - 1)
  }

  lemma {:induction false} WidthOf(n: nat, base: nat, width: nat)
    requires base >= 2 && n < Pow(base, width)
    ensures HasWidth(n, base, width)
    decreases width
  {
    hide Quot;
    if width > 0 {
      DivBelow(n, base, Pow(base, width - 1));
      WidthOf(Quot(n, base), base, width - 1);
    }
  }

  /** Reading the digits back gives the number. */
  lemma {:induction false} ValueOfDigits(n: nat, base: nat, width: nat)
    requires base >= 2 && HasWidth(n, base, width)
    ensures Value(Digits(n, base, width), base) == n
    decreases width
  {
    hide Quot;
    hide Rem;
    if width > 0 {
      ValueOfDigits(Quot(n, base), base, width - 1);
      assert Digits(n, base, width)[..width - 1] == Digits(Quot(n, base), base, width - 1);
      Divide(n, base);
    }
  }

  // ---- bytes.Compare on the 16 bytes ----

  function Sign(x: int, y: int): int {
    if x < y then -1 else if x > y then 1 else 0
  }

  /** Lexicographic comparison from the first byte on. */
  function Compare(a: seq<nat>, b: seq<nat>): int
    requires |a| == |b|
  {
    if a == [] then 0
    else if a[0] != b[0] then Sign(a[0], b[0])
    else Compare(a[1..], b[1..])
  }

  lemma {:induction false} CompareLast(a: seq<nat>, b: seq<nat>, x: nat, y: nat)
    requires |a| == |b|
    ensures Compare(a + [x], b + [y]) == if Compare(a, b) != 0 then Compare(a, b) else Sign(x, y)
  {
    if a == [] {
      assert (a + [x])[1..] == [] && (b + [y])[1..] == [];
    } else {
      assert (a + [x])[1..] == a[1..] + [x];
      assert (b + [y])[1..] == b[1..] + [y];
      CompareLast(a[1..], b[1..], x, y);
    }
  }

  lemma SignOfParts(q: nat, r: nat, p: nat, t: nat, base: nat)
    requires r < base && t < base
    ensures Sign(q * base + r, p * base + t) == if Sign(q, p) != 0 then Sign(q, p) else Sign(r, t)
  {
    Scale(q, p + 1, base);
    Scale(p, q + 1, base);
  }

  lemma SignByQuotient(m: nat, n: nat, base: nat)
    requires base >= 2
    ensures Sign(m, n) == if Sign(Quot(m, base), Quot(n, base)) != 0 then Sign(Quot(m, base), Quot(n, base))
                          else Sign(Rem(m, base), Rem(n, base))
  {
    hide Quot;
    hide Rem;
    hide Sign;
    Divide(m, base);
    Divide(n, base);
    SignOfParts(Quot(m, base), Rem(m, base), Quot(n, base), Rem(n, base), base);
  }

  lemma {:induction false} CompareDigits(m: nat, n: nat, base: nat, width: nat)
    requires base >= 2 && HasWidth(m, base, width) && HasWidth(n, base, width)
    ensures Compare(Digits(m, base, width), Digits(n, base, width)) == Sign(m, n)
    decreases width
  {
    hide Quot;
    hide Rem;
    if width > 0 {
      var mq, nq := Quot(m, base), Quot(n, base);
      CompareDigits(mq, nq, base, width - 1);
      CompareLast(Digits(mq, base, width - 1), Digits(nq, base, width - 1), Rem(m, base), Rem(n, base));
      SignByQuotient(m, n, base);
      hide Compare;
      hide Sign;
    }
  }

  function Bytes(u: Uuid): seq<nat> {
    Digits(u, 256, 16)
  }

  /** Comparing two UUIDs byte by byte is comparing their values. */
  lemma ByteOrder(u: Uuid, v: Uuid)
    ensures Compare(Bytes(u), Bytes(v)) < 0 <==> u < v
    ensures Bytes(u) == Bytes(v) <==> u == v
  {
    assert Pow(256, 8) == 0x1_0000_0000_0000_0000;
    assert Pow(256, 16) == SPAN;
    WidthOf(u, 256, 16);
    WidthOf(v, 256, 16);
    CompareDigits(u, v, 256, 16);
    ValueOfDigits(u, 256, 16);
    ValueOfDigits(v, 256, 16);
  }

  // ---- canonical text, section 4 of RFC 9562 ----

  const HEX: string := "0123456789abcdef"

  function HexValue(c: char): Option<nat> {
    if '0' <= c <= '9' then Some((c - '0') as nat)
    else if 'a' <= c <= 'f' then Some((c - 'a') as nat + 10)
    else if 'A' <= c <= 'F' then Some((c - 'A') as nat + 10)
    else None
  }

  function HexText(ds: seq<nat>): (s: string)
    requires forall i :: 0 <= i < |ds| ==> ds[i] < 16
    ensures |s| == |ds|
    ensures forall i :: 0 <= i < |ds| ==> s[i] == HEX[ds[i]]
  {
    seq(|ds|, i requires 0 <= i < |ds| => HEX[ds[i]])
  }

  function HexDigits(s: string): Option<seq<nat>> {
    if s == [] then Some([])
    else
      var init := HexDigits(s[..|s| - 1]);
      var last := HexValue(s[|s| - 1]);
      if init.Some? && last.Some? then Some(init.value + [last.value]) else None
  }

  lemma HexDigit(d: nat)
    requires d < 16
    ensures HexValue(HEX[d]) == Some(d)
  {
  }

  lemma {:induction false} HexRoundTrip(ds: seq<nat>)
    requires forall i :: 0 <= i < |ds| ==> ds[i] < 16
    ensures HexDigits(HexText(ds)) == Some(ds)
  {
    if ds != [] {
      var init := ds[..|ds| - 1];
      HexRoundTrip(init);
      assert HexText(ds)[..|ds| - 1] == HexText(init);
      HexDigit(ds[|ds| - 1]);
      hide HexValue;
      assert init + [ds[|ds| - 1]] == ds;
    } else {
      assert HexText(ds) == [];
    }
  }

  /** uuid.UUID.String: 32 hexadecimal digits in groups of 8, 4, 4, 4 and 12. */
  function Text(u: Uuid): (s: string)
    ensures |s| == 36
  {
    var h := HexText(Digits(u, 16, 32));
    h[..8] + "-" + h[8..12] + "-" + h[12..16] + "-" + h[16..20] + "-" + h[20..]
  }

  /** uuid.Parse on the 36-character form. */
  function Parse(s: string): Option<Uuid> {
    if |s| != 36 || s[8] != '-' || s[13] != '-' || s[18] != '-' || s[23] != '-' then None
    else
      var ds := HexDigits(s[..8] + s[9..13] + s[14..18] + s[19..23] + s[24..]);
      if ds.Some? && Value(ds.value, 16) < SPAN then Some(Value(ds.value, 16)) else None
  }

  lemma Ungroup(h: string, s: string)
    requires |h| == 32
    requires s == h[..8] + "-" + h[8..12] + "-" + h[12..16] + "-" + h[16..20] + "-" + h[20..]
    ensures |s| == 36 && s[8] == '-' && s[13] == '-' && s[18] == '-' && s[23] == '-'
    ensures s[..8] + s[9..13] + s[14..18] + s[19..23] + s[24..] == h
  {
    assert s[..8] == h[..8] && s[9..13] == h[8..12] && s[14..18] == h[12..16];
    assert s[19..23] == h[16..20] && s[24..] == h[20..];
    assert h[..8] + h[8..12] == h[..12];
    assert h[..12] + h[12..16] == h[..16];
    assert h[..16] + h[16..20] == h[..20];
    assert h[..20] + h[20..] == h;
  }

  lemma {:induction false} HexDigitsMeaning(s: string)
    ensures HexDigits(s).Some? <==> forall i :: 0 <= i < |s| ==> HexValue(s[i]).Some?
  {
    if s != [] {
      HexDigitsMeaning(s[..|s| - 1]);
      assert forall i :: 0 <= i < |s| - 1 ==> s[..|s| - 1][i] == s[i];
    }
  }

  /** Nothing parses that is not hexadecimal digits in groups of 8, 4, 4, 4 and 12. */
  lemma ParseMeaning(s: string)
    ensures Parse(s).Some? ==>
              && |s| == 36 && s[8] == '-' && s[13] == '-' && s[18] == '-' && s[23] == '-'
              && var h := s[..8] + s[9..13] + s[14..18] + s[19..23] + s[24..];
                 forall i :: 0 <= i < |h| ==> HexValue(h[i]).Some?
  {
    if |s| == 36 {
      HexDigitsMeaning(s[..8] + s[9..13] + s[14..18] + s[19..23] + s[24..]);
    }
  }

  /** Parsing a printed UUID gives it back; between its hyphens are its 32 digits, the highest first. */
  lemma TextRoundTrip(u: Uuid)
    ensures Parse(Text(u)) == Some(u)
    ensures var s := Text(u);
            && s[8] == '-' && s[13] == '-' && s[18] == '-' && s[23] == '-'
            && s[..8] + s[9..13] + s[14..18] + s[19..23] + s[24..] == HexText(Digits(u, 16, 32))
  {
    var h := HexText(Digits(u, 16, 32));
    Ungroup(h, Text(u));
    HexRoundTrip(Digits(u, 16, 32));
    hide HexDigits;
    hide HexText;
    assert Pow(16, 8) == 0x1_0000_0000;
    assert Pow(16, 16) == 0x1_0000_0000_0000_0000;
    assert Pow(16, 24) == 0x1_0000_0000_0000_0000_0000_0000;
    assert Pow(16, 32) == SPAN;
    WidthOf(u, 16, 32);
    ValueOfDigits(u, 16, 32);
  }
}
