/** UUID order: the comparison of canonical strings used in JavaScript against the
    comparison of two signed 64-bit halves used on the JVM. */
module Uuid {

  /** 32 hexadecimal digits. */
  predicate IsUuid(u: seq<nat>) {
    |u| == 32 && forall i :: 0 <= i < 32 ==> u[i] < 16
  }

  // ----------------------------------------------------------- canonical strings

  function HexChar(d: nat): char
    requires d < 16
  {
    if d < 10 then '0' + d as char else 'a' + (d - 10) as char
  }

  function Hex(ds: seq<nat>): (s: string)
    requires forall i :: 0 <= i < |ds| ==> ds[i] < 16
    ensures |s| == |ds|
  {
    if ds == [] then [] else [HexChar(ds[0])] + Hex(ds[1..])
  }

  /** The lowercase form in groups of 8, 4, 4, 4 and 12 digits. */
  function Canonical(u: seq<nat>): string
    requires IsUuid(u)
  {
    Hex(u[..8]) + ("-" + (Hex(u[8..12]) + ("-" + (Hex(u[12..16]) + ("-" + (Hex(u[16..20]) + ("-" + Hex(u[20..]))))))))
  }

  /** Comparison of strings, character by character. */
  function CompareStrings(s: string, t: string): int {
    if s == [] && t == [] then 0
    else if s == [] then -1
    else if t == [] then 1
    else if s[0] < t[0] then -1
    else if s[0] > t[0] then 1
    else CompareStrings(s[1..], t[1..])
  }

  /** The ClojureScript branch of `compare-value`: '8' to 'f' first, as negative numbers. */
  function CompareCljs(s: string, t: string): int
    requires s != [] && t != []
  {
    var neg1, neg2 := s[0] >= 56 as char, t[0] >= 56 as char;
    if neg1 && !neg2 then -1 else if neg2 && !neg1 then 1 else CompareStrings(s, t)
  }

  // ----------------------------------------------------------------- signed halves

  function Number(ds: seq<nat>): nat {
    if ds == [] then 0 else Number(ds[..|ds| - 1]) * 16 + ds[|ds| - 1]
  }

  const SIGN_BIT := 0x8000_0000_0000_0000
  const TWO_TO_64 := 0x1_0000_0000_0000_0000

  function Signed(n: int): int {
    if n >= SIGN_BIT then n - TWO_TO_64 else n
  }

  function Sign(n: int): int {
    if n < 0 then -1 else if n > 0 then 1 else 0
  }

  /** Java: most significant half first, each as a signed long. */
  function CompareClj(u: seq<nat>, v: seq<nat>): int
    requires IsUuid(u) && IsUuid(v)
  {
    var high := Sign(Signed(Number(u[..16])) - Signed(Number(v[..16])));
    if high != 0 then high else Sign(Signed(Number(u[16..])) - Signed(Number(v[16..])))
  }

  // ------------------------------------------------------------ digits and numbers

  function CompareDigits(s: seq<nat>, t: seq<nat>): int
    requires |s| == |t|
  {
    if s == [] then 0 else if s[0] != t[0] then Sign(s[0] as int - t[0] as int) else CompareDigits(s[1..], t[1..])
  }

  lemma {:induction false} DigitsConcat(a: seq<nat>, b: seq<nat>, c: seq<nat>, d: seq<nat>)
    requires |a| == |c| && |b| == |d|
    ensures CompareDigits(a + b, c + d) == if CompareDigits(a, c) != 0 then CompareDigits(a, c) else CompareDigits(b, d)
  {
    if a == [] {
      assert a + b == b && c + d == d;
    } else {
      assert (a + b)[1..] == a[1..] + b && (c + d)[1..] == c[1..] + d;
      assert (a + b)[0] == a[0] && (c + d)[0] == c[0];
      DigitsConcat(a[1..], b, c[1..], d);
    }
  }

  lemma {:induction false} StringsConcat(a: string, b: string, c: string, d: string)
    requires |a| == |c|
    ensures CompareStrings(a + b, c + d)
        == if CompareStrings(a, c) != 0 then CompareStrings(a, c) else CompareStrings(b, d)
  {
    if a == [] {
      assert a + b == b && c + d == d;
    } else {
      assert (a + b)[1..] == a[1..] + b && (c + d)[1..] == c[1..] + d;
      assert (a + b)[0] == a[0] && (c + d)[0] == c[0];
      StringsConcat(a[1..], b, c[1..], d);
    }
  }

  lemma {:induction false} HexOrder(d: nat, e: nat)
    requires d < 16 && e < 16
    ensures HexChar(d) < HexChar(e) <==> d < e
  {}

  lemma {:induction false} HexCompare(s: seq<nat>, t: seq<nat>)
    requires |s| == |t|
    requires (forall i :: 0 <= i < |s| ==> s[i] < 16) && forall i :: 0 <= i < |t| ==> t[i] < 16
    ensures CompareStrings(Hex(s), Hex(t)) == CompareDigits(s, t)
  {
    if s != [] {
      HexOrder(s[0], t[0]);
      HexOrder(t[0], s[0]);
      HexCompare(s[1..], t[1..]);
      assert Hex(s)[1..] == Hex(s[1..]) && Hex(t)[1..] == Hex(t[1..]);
    }
  }

  /** The dashes do not matter. */
  lemma {:induction false} DashCompare(s: seq<nat>, t: seq<nat>, x: string, y: string, m: seq<nat>, n: seq<nat>)
    requires |s| == |t| && |m| == |n| && (forall i :: 0 <= i < |s| ==> s[i] < 16 && t[i] < 16)
    requires CompareStrings(x, y) == CompareDigits(m, n)
    ensures CompareStrings(Hex(s) + ("-" + x), Hex(t) + ("-" + y)) == CompareDigits(s + m, t + n)
  {
    HexCompare(s, t);
    StringsConcat(Hex(s), "-" + x, Hex(t), "-" + y);
    assert ("-" + x)[1..] == x && ("-" + y)[1..] == y;
    DigitsConcat(s, m, t, n);
  }

  lemma {:induction false} CanonicalCompare(u: seq<nat>, v: seq<nat>)
    requires IsUuid(u) && IsUuid(v)
    ensures CompareStrings(Canonical(u), Canonical(v)) == CompareDigits(u, v)
  {
    HexCompare(u[20..], v[20..]);
    DashCompare(u[16..20], v[16..20], Hex(u[20..]), Hex(v[20..]), u[20..], v[20..]);
    assert u[16..20] + u[20..] == u[16..] && v[16..20] + v[20..] == v[16..];
    var x, y := Hex(u[16..20]) + ("-" + Hex(u[20..])), Hex(v[16..20]) + ("-" + Hex(v[20..]));
    DashCompare(u[12..16], v[12..16], x, y, u[16..], v[16..]);
    assert u[12..16] + u[16..] == u[12..] && v[12..16] + v[16..] == v[12..];
    var x2, y2 := Hex(u[12..16]) + ("-" + x), Hex(v[12..16]) + ("-" + y);
    DashCompare(u[8..12], v[8..12], x2, y2, u[12..], v[12..]);
    assert u[8..12] + u[12..] == u[8..] && v[8..12] + v[12..] == v[8..];
    var x3, y3 := Hex(u[8..12]) + ("-" + x2), Hex(v[8..12]) + ("-" + y2);
    DashCompare(u[..8], v[..8], x3, y3, u[8..], v[8..]);
    assert u[..8] + u[8..] == u && v[..8] + v[8..] == v;
  }

  /** Digit by digit is the order of the numbers. */
  lemma {:induction false} NumberOrder(s: seq<nat>, t: seq<nat>)
    requires |s| == |t| && forall i :: 0 <= i < |s| ==> s[i] < 16 && t[i] < 16
    ensures CompareDigits(s, t) == Sign(Number(s) - Number(t))
  {
    if s != [] {
      var a, b := s[..|s| - 1], t[..|t| - 1];
      var x, y := s[|s| - 1], t[|t| - 1];
      NumberOrder(a, b);
      assert s == a + [x] && t == b + [y];
      DigitsConcat(a, [x], b, [y]);
      assert [x][1..] == [] && [y][1..] == [];
      assert CompareDigits([x], [y]) == Sign(x as int - y as int);
      assert Number(s) == 16 * Number(a) + x && Number(t) == 16 * Number(b) + y;
    }
  }

  lemma {:induction false} NumberBounds(ds: seq<nat>, low: nat, high: nat)
    requires ds != [] && low <= Number(ds[..1]) < high && forall i :: 0 <= i < |ds| ==> ds[i] < 16
    ensures low * Pow16(|ds| - 1) <= Number(ds) < high * Pow16(|ds| - 1)
  {
    if |ds| == 1 {
      assert ds[..1] == ds;
    } else {
      var init, p := ds[..|ds| - 1], Pow16(|ds| - 2);
      assert init[..1] == ds[..1];
      NumberBounds(init, low, high);
      Sixteen(low, p);
      Sixteen(high, p);
      assert low * p <= Number(init) < high * p;
      assert Number(ds) == 16 * Number(init) + ds[|ds| - 1];
    }
  }

  function Pow16(n: nat): nat {
    if n == 0 then 1 else 16 * Pow16(n - 1)
  }

  lemma {:induction false} Sixteen(a: nat, p: nat)
    ensures a * (16 * p) == 16 * (a * p)
  {}

  /** The first digit has the sign bit. */
  lemma {:induction false} SignDigit(ds: seq<nat>)
    requires |ds| == 16 && forall i :: 0 <= i < 16 ==> ds[i] < 16
    ensures Number(ds) < TWO_TO_64 && (Number(ds) >= SIGN_BIT <==> ds[0] >= 8)
  {
    assert ds[..1][..0] == [] && Number(ds[..1]) == ds[0];
    assert Pow16(15) == 0x1000_0000_0000_0000;
    if ds[0] >= 8 { NumberBounds(ds, 8, 16); } else { NumberBounds(ds, 0, 8); }
  }

  /** Both UUIDs of the variant in section 4.1.1 of RFC 4122: the digit after the third
      dash is 8, 9, a or b. */
  predicate Variant(u: seq<nat>)
    requires IsUuid(u)
  {
    8 <= u[16] < 12
  }

  /** The two comparisons agree exactly when the high halves differ or the low halves have
      the same sign bit. */
  lemma {:induction false} ComparisonsAgree(u: seq<nat>, v: seq<nat>)
    requires IsUuid(u) && IsUuid(v)
    ensures CompareCljs(Canonical(u), Canonical(v)) == CompareClj(u, v)
       <==> u[..16] != v[..16] || (u[16] >= 8 <==> v[16] >= 8)
  {
    var hu, hv, lu, lv := u[..16], v[..16], u[16..], v[16..];
    CanonicalCompare(u, v);
    FirstChar(u);
    FirstChar(v);
    assert u == hu + lu && v == hv + lv;
    DigitsConcat(hu, lu, hv, lv);
    NumberOrder(hu, hv);
    NumberOrder(lu, lv);
    SignDigit(hu);
    SignDigit(hv);
    SignDigit(lu);
    SignDigit(lv);
    SameDigits(hu, hv);
  }

  lemma {:induction false} SameDigits(s: seq<nat>, t: seq<nat>)
    requires |s| == |t|
    ensures CompareDigits(s, t) == 0 <==> s == t
  {
    if s != [] {
      SameDigits(s[1..], t[1..]);
      assert s == [s[0]] + s[1..] && t == [t[0]] + t[1..];
    }
  }

  lemma {:induction false} FirstChar(u: seq<nat>)
    requires IsUuid(u)
    ensures Canonical(u) != [] && (Canonical(u)[0] >= 56 as char <==> u[0] >= 8)
  {
    assert Hex(u[..8])[0] == HexChar(u[0]);
  }

  /** On UUIDs of the RFC 4122 variant, indices built on either platform have one order. */
  lemma {:induction false} VariantAgrees(u: seq<nat>, v: seq<nat>)
    requires IsUuid(u) && IsUuid(v) && Variant(u) && Variant(v)
    ensures CompareCljs(Canonical(u), Canonical(v)) == CompareClj(u, v)
  {
    ComparisonsAgree(u, v);
  }
}
