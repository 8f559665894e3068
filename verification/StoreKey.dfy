/** The byte-level key layout of the flat map and the two integer encodings
    (src/common/storekey.cpp).  A byte string is a `string`; a byte is a char,
    and LevelDB's bytewise comparator is the lexicographic order on chars. */
module StoreKey {

  const TWO_63: int := 0x8000_0000_0000_0000
  const TWO_64: int := 0x1_0000_0000_0000_0000

  // ---------------------------------------------------------------- order

  predicate LexLess(a: string, b: string) {
    b != [] && (a == [] || a[0] < b[0] || (a[0] == b[0] && LexLess(a[1..], b[1..])))
  }

  predicate StartsWith(s: string, p: string) {
    |p| <= |s| && s[..|p|] == p
  }

  lemma {:induction false} LexTransitive(a: string, b: string, c: string)
    requires LexLess(a, b) && LexLess(b, c)
    ensures LexLess(a, c)
  {
    if a != [] && a[0] == b[0] && b[0] == c[0] {
      LexTransitive(a[1..], b[1..], c[1..]);
    }
  }

  lemma {:induction false} LexTrichotomy(a: string, b: string)
    ensures !(LexLess(a, b) && LexLess(b, a))
    ensures !LexLess(a, a)
    ensures LexLess(a, b) || a == b || LexLess(b, a)
  {
    if a == [] {
    } else {
      LexTrichotomy(a[1..], if b != [] then b[1..] else []);
      if b != [] && a[0] == b[0] && a[1..] == b[1..] {
        assert a == [a[0]] + a[1..] == b;
      }
    }
  }

  /** A common prefix does not influence the order. */
  lemma {:induction false} LexCommonPrefix(p: string, a: string, b: string)
    ensures LexLess(p + a, p + b) <==> LexLess(a, b)
  {
    if p == [] {
      assert p + a == a && p + b == b;
    } else {
      assert (p + a)[1..] == p[1..] + a && (p + b)[1..] == p[1..] + b;
      LexCommonPrefix(p[1..], a, b);
    }
  }

  /** Heads of equal length decide before tails are looked at. */
  lemma {:induction false} LexHeads(a: string, x: string, b: string, y: string)
    requires |a| == |b| && LexLess(a, b)
    ensures LexLess(a + x, b + y)
  {
    assert (a + x)[1..] == a[1..] + x && (b + y)[1..] == b[1..] + y;
    if a[0] == b[0] {
      LexHeads(a[1..], x, b[1..], y);
    }
  }

  /** The strings with prefix p form one contiguous block that starts at p:
      nothing with the prefix is below p, and whatever is not below p and lacks
      the prefix is above the whole block. */
  lemma {:induction false} PrefixBlock(p: string, x: string, y: string)
    requires StartsWith(y, p)
    ensures !LexLess(y, p)
    ensures !LexLess(x, p) && !StartsWith(x, p) ==> LexLess(y, x)
  {
    if p == [] {
    } else {
      assert y[0] == p[0];
      assert StartsWith(y[1..], p[1..]) by {
        assert y[1..][..|p| - 1] == y[..|p|][1..];
      }
      PrefixBlock(p[1..], if x == [] then [] else x[1..], y[1..]);
      if x != [] && x[0] == p[0] && StartsWith(x[1..], p[1..]) {
        assert x[..|p|] == [x[0]] + x[1..][..|p| - 1] == p;
      }
    }
  }

  // ------------------------------------------------- 16-digit hexadecimal

  function HexDigit(d: nat): (c: char)
    requires d < 16
    ensures '0' <= c <= '9' || 'a' <= c <= 'f'
    ensures c == "0123456789abcdef"[d]
  {
    if d < 10 then '0' + d as char else 'a' + (d - 10) as char
  }

  predicate IsHexDigit(c: char) {
    '0' <= c <= '9' || 'a' <= c <= 'f'
  }

  function HexValue(c: char): (d: nat)
    requires IsHexDigit(c)
    ensures d < 16 && HexDigit(d) == c
  {
    if c <= '9' then c as int - '0' as int else c as int - 'a' as int + 10
  }

  function Pow16(n: nat): (p: nat)
    ensures p >= 1
  {
    if n == 0 then 1 else 16 * Pow16(n - 1)
  }

  /** `%0{n}llx` of an unsigned value. */
  function Hex(v: nat, n: nat): (s: string)
    ensures |s| == n
    ensures forall i :: 0 <= i < n ==> IsHexDigit(s[i])
  {
    if n == 0 then [] else Hex(v / 16, n - 1) + [HexDigit(v % 16)]
  }

  function Unhex(s: string): nat
    requires forall i :: 0 <= i < |s| ==> IsHexDigit(s[i])
  {
    if s == [] then 0 else 16 * Unhex(s[..|s| - 1]) + HexValue(s[|s| - 1])
  }

  lemma {:induction false} UnhexHex(v: nat, n: nat)
    requires v < Pow16(n)
    ensures Unhex(Hex(v, n)) == v
  {
    if n == 0 {
    } else {
      UnhexHex(v / 16, n - 1);
      assert Hex(v, n)[..n - 1] == Hex(v / 16, n - 1);
    }
  }

  lemma {:induction false} LexSnoc(a: string, x: char, b: string, y: char)
    requires |a| == |b|
    ensures LexLess(a + [x], b + [y]) <==> LexLess(a, b) || (a == b && x < y)
  {
    if a == [] {
    } else {
      assert (a + [x])[1..] == a[1..] + [x] && (b + [y])[1..] == b[1..] + [y];
      LexSnoc(a[1..], x, b[1..], y);
      assert a == [a[0]] + a[1..] && b == [b[0]] + b[1..];
    }
  }

  lemma DigitOrder(a: nat, b: nat)
    requires a < 16 && b < 16
    ensures HexDigit(a) < HexDigit(b) <==> a < b
  {
  }

  lemma LeadingDigits(u: nat, v: nat)
    ensures u < v <==> u / 16 < v / 16 || (u / 16 == v / 16 && u % 16 < v % 16)
  {
  }

  lemma HexEqual(u: nat, v: nat, n: nat)
    requires u < Pow16(n) && v < Pow16(n)
    ensures Hex(u, n) == Hex(v, n) <==> u == v
  {
    UnhexHex(u, n);
    UnhexHex(v, n);
  }

  lemma {:induction false} HexOrder(u: nat, v: nat, n: nat)
    requires u < Pow16(n) && v < Pow16(n)
    ensures LexLess(Hex(u, n), Hex(v, n)) <==> u < v
  {
    if n == 0 {
    } else {
      var a, b := u / 16, v / 16;
      HexOrder(a, b, n - 1);
      HexEqual(a, b, n - 1);
      LexSnoc(Hex(a, n - 1), HexDigit(u % 16), Hex(b, n - 1), HexDigit(v % 16));
      DigitOrder(u % 16, v % 16);
      LeadingDigits(u, v);
    }
  }

  datatype Parsed = OutOfRange | Parsed(value: nat)

  /** The int64 is cast to unsigned, so a negative value wraps. */
  function EncodeOrd(v: int): (s: string)
    requires -TWO_63 <= v < TWO_63
    ensures |s| == 16
    ensures forall i :: 0 <= i < 16 ==> IsHexDigit(s[i])
  {
    Hex(if v < 0 then v + TWO_64 else v, 16)
  }

  /** std::stoll in base 16 throws beyond the int64 range. */
  function DecodeOrd(s: string): Parsed
    requires s != "" && forall i :: 0 <= i < |s| ==> IsHexDigit(s[i])
  {
    if Unhex(s) < TWO_63 then Parsed.Parsed(Unhex(s)) else OutOfRange
  }

  lemma OrdRange()
    ensures Pow16(16) == TWO_64
  {
    assert Pow16(8) == 0x1_0000_0000;
    assert Pow16(12) == 0x1_0000_0000_0000;
  }

  /** Round trip exactly on the non-negative half: the encoding of a negative
      value is out of range for the decoder. */
  lemma DecodeEncodeOrd(v: int)
    requires -TWO_63 <= v < TWO_63
    ensures DecodeOrd(EncodeOrd(v)) == if v >= 0 then Parsed.Parsed(v) else OutOfRange
  {
    OrdRange();
    UnhexHex(if v < 0 then v + TWO_64 else v, 16);
  }

  /** Byte order of the encodings is numeric order on 0 .. 2^63-1. */
  lemma OrdOrder(u: nat, v: nat)
    requires u < TWO_63 && v < TWO_63
    ensures LexLess(EncodeOrd(u), EncodeOrd(v)) <==> u < v
    ensures EncodeOrd(u) == EncodeOrd(v) <==> u == v
  {
    OrdRange();
    HexOrder(u, v, 16);
    UnhexHex(u, 16);
    UnhexHex(v, 16);
  }

  // ------------------------------------------------- 8-byte big endian

  type Byte = b: int | 0 <= b < 256

  function Pow256(n: nat): (p: nat)
    ensures p >= 1
  {
    if n == 0 then 1 else 256 * Pow256(n - 1)
  }

  function BigEndian(v: nat, n: nat): (s: seq<Byte>)
    ensures |s| == n
  {
    if n == 0 then [] else BigEndian(v / 256, n - 1) + [v % 256]
  }

  function BigEndianValue(s: seq<Byte>): (v: nat)
    ensures v < Pow256(|s|)
  {
    if s == [] then 0 else 256 * BigEndianValue(s[..|s| - 1]) + s[|s| - 1]
  }

  lemma {:induction false} BigEndianRoundTrip(v: nat, n: nat)
    requires v < Pow256(n)
    ensures BigEndianValue(BigEndian(v, n)) == v
  {
    if n == 0 {
    } else {
      BigEndianRoundTrip(v / 256, n - 1);
      assert BigEndian(v, n)[..n - 1] == BigEndian(v / 256, n - 1);
    }
  }

  lemma {:induction false} BigEndianValueRoundTrip(s: seq<Byte>)
    ensures BigEndian(BigEndianValue(s), |s|) == s
  {
    if s == [] {
    } else {
      BigEndianValueRoundTrip(s[..|s| - 1]);
      var hi, lo := BigEndianValue(s[..|s| - 1]), s[|s| - 1];
      assert (256 * hi + lo) / 256 == hi && (256 * hi + lo) % 256 == lo;
    }
  }

  lemma Uint64Range()
    ensures Pow256(8) == TWO_64
  {
  }

  function Uint64(v: nat): seq<Byte> { BigEndian(v, 8) }

  function FromUint64(s: seq<Byte>): nat {
    if |s| < 8 then 0 else BigEndianValue(s[..8])
  }

  lemma Uint64RoundTrip(v: nat)
    requires v < TWO_64
    ensures FromUint64(Uint64(v)) == v
  {
    Uint64Range();
    BigEndianRoundTrip(v, 8);
    assert Uint64(v)[..8] == Uint64(v);
  }

  /** The first of the eight bytes weighs most. */
  lemma {:induction false} BytesWeigh(s: seq<Byte>)
    requires |s| == 8
    ensures var b := (i: int) requires 0 <= i < 8 => s[i] as int;
            FromUint64(s) == 0x100_0000_0000_0000 * b(0) + 0x1_0000_0000_0000 * b(1) + 0x100_0000_0000 * b(2) +
                             0x1_0000_0000 * b(3) + 0x100_0000 * b(4) + 0x1_0000 * b(5) + 0x100 * b(6) + b(7)
  {
    assert s[..8] == s && BigEndianValue(s[..0]) == 0;
    forall i: nat | i < 8 ensures BigEndianValue(s[..i + 1]) == 256 * BigEndianValue(s[..i]) + s[i] as int {
      assert s[..i + 1][..i] == s[..i];
    }
  }

  method EncodeUint64(value: nat) returns (out: seq<Byte>)
    requires value < TWO_64
    ensures out == Uint64(value)
    ensures FromUint64(out) == value
  {
    var buf := new Byte[8](_ => 0);
    var v := value;
    var i := 7;
    while i >= 0
      invariant -1 <= i <= 7
      invariant BigEndian(value, 8) == BigEndian(v, i + 1) + buf[i + 1..]
    {
      buf[i] := v % 256;
      assert buf[i..] == [v % 256] + buf[i + 1..];
      v := v / 256;
      i := i - 1;
    }
    out := buf[..];
    Uint64RoundTrip(value);
  }

  /** Shifts drop what leaves the 64-bit word; the proof shows nothing does. */
  method DecodeUint64(input: seq<Byte>) returns (v: nat)
    ensures v == FromUint64(input) && v < TWO_64
    ensures |input| >= 8 ==> Uint64(v) == input[..8]
    ensures |input| < 8 ==> v == 0
  {
    v := 0;
    if |input| < 8 {
      return;
    }
    Uint64Range();
    var i := 0;
    while i < 8
      invariant 0 <= i <= 8
      invariant v == BigEndianValue(input[..i])
    {
      assert input[..i + 1][..i] == input[..i];
      ShiftFits(v, i);
      v := (v * 256) % TWO_64 + input[i];
      i := i + 1;
    }
    BigEndianValueRoundTrip(input[..8]);
  }

  lemma ShiftFits(v: nat, i: nat)
    requires i < 8 && v < Pow256(i)
    ensures v * 256 < TWO_64
  {
    Pow256Monotone(i, 7);
    assert Pow256(7) * 256 == Pow256(8);
    Uint64Range();
  }

  lemma {:induction false} Pow256Monotone(m: nat, n: nat)
    requires m <= n
    ensures Pow256(m) <= Pow256(n)
  {
    if m >= n {
    } else {
      Pow256Monotone(m, n - 1);
    }
  }

  // ---------------------------------------------------------- key shapes

  datatype Shape =
    | RevisionMeta
    | CompactMeta
    | Main(key: string)
    | Version(rev: nat, key: string)
    | Config(key: string, ver: nat)
  {
    predicate Valid() {
      match this
      case Version(r, _) => r < TWO_63
      case Config(_, v) => v < TWO_63
      case _ => true
    }
  }

  function RevisionMetaKey(): string { "meta/revision" }
  function CompactRevKey(): string { "meta/compact_rev" }
  function MainKey(key: string): string { "k/" + key }

  function VersionKey(rev: int, key: string): string
    requires -TWO_63 <= rev < TWO_63
  {
    "v/" + EncodeOrd(rev) + "/" + key
  }

  function ConfigKey(key: string, ver: int): string
    requires -TWO_63 <= ver < TWO_63
  {
    "cfg/" + key + "/" + EncodeOrd(ver)
  }

  function KeyOf(sh: Shape): string
    requires sh.Valid()
  {
    match sh
    case RevisionMeta => RevisionMetaKey()
    case CompactMeta => CompactRevKey()
    case Main(k) => MainKey(k)
    case Version(r, k) => VersionKey(r, k)
    case Config(k, v) => ConfigKey(k, v)
  }

  /** The pieces a scan cuts out of a `v/` key. */
  lemma VersionParts(r: nat, k: string)
    requires r < TWO_63
    ensures var x := VersionKey(r, k);
            |x| == 19 + |k| && StartsWith(x, "v/") && x[2..18] == EncodeOrd(r) && x[19..] == k
  {
    var x := VersionKey(r, k);
    assert x[..2] == "v/";
    assert x[2..18] == EncodeOrd(r);
    assert x[19..] == k;
  }

  lemma ConfigParts(k: string, v: nat)
    requires v < TWO_63
    ensures var x := ConfigKey(k, v);
            |x| == |k| + 21 && StartsWith(x, "cfg/") && x[4..|x| - 17] == k &&
            x[|x| - 16..] == EncodeOrd(v) && StartsWith(x, "cfg/" + k + "/")
  {
    var x := ConfigKey(k, v);
    assert x[..4] == "cfg/";
    assert x[4..|x| - 17] == k;
    assert x[|x| - 16..] == EncodeOrd(v);
    assert x[..|k| + 5] == "cfg/" + k + "/";
  }

  /** The first byte tells the shapes apart. */
  function Tag(sh: Shape): char {
    match sh
    case RevisionMeta => 'm'
    case CompactMeta => 'm'
    case Main(_) => 'k'
    case Version(_, _) => 'v'
    case Config(_, _) => 'c'
  }

  lemma KeyTag(sh: Shape)
    requires sh.Valid()
    ensures |KeyOf(sh)| >= 2 && KeyOf(sh)[0] == Tag(sh)
    ensures StartsWith(KeyOf(sh), "v/") <==> sh.Version?
    ensures StartsWith(KeyOf(sh), "k/") <==> sh.Main?
    ensures StartsWith(KeyOf(sh), "cfg/") <==> sh.Config?
    ensures KeyOf(sh) == "meta/revision" <==> sh.RevisionMeta?
    ensures KeyOf(sh) == "meta/compact_rev" <==> sh.CompactMeta?
  {
    var x := KeyOf(sh);
    assert |x| >= 2 && x[0] == Tag(sh);
    assert "v/"[0] == 'v' && "k/"[0] == 'k' && "cfg/"[0] == 'c';
    match sh
    case Version(r, k) => VersionParts(r, k);
    case Config(k, v) => ConfigParts(k, v);
    case Main(k) => assert x[..2] == "k/";
    case _ =>
  }

  /** The five key shapes are disjoint, and each is injective in its fields. */
  lemma KeyInjective(a: Shape, b: Shape)
    requires a.Valid() && b.Valid() && KeyOf(a) == KeyOf(b)
    ensures a == b
  {
    KeyTag(a);
    KeyTag(b);
    var x := KeyOf(a);
    match a
    case RevisionMeta => assert |x| == 13; assert |CompactRevKey()| == 16;
    case CompactMeta => assert |x| == 16; assert |RevisionMetaKey()| == 13;
    case Main(k) => assert x[2..] == k; assert x[2..] == b.key;
    case Version(r, k) =>
      VersionParts(r, k);
      VersionParts(b.rev, b.key);
      OrdOrder(r, b.rev);
    case Config(k, v) =>
      ConfigParts(k, v);
      ConfigParts(b.key, b.ver);
      OrdOrder(v, b.ver);
  }

  /** `v/` keys sort by revision first; the bare key of a revision opens its block. */
  lemma VersionOrder(r1: nat, k1: string, r2: nat, k2: string)
    requires r1 < TWO_63 && r2 < TWO_63
    ensures r1 < r2 ==> LexLess(VersionKey(r1, k1), VersionKey(r2, k2))
    ensures r1 <= r2 ==> !LexLess(VersionKey(r2, k2), VersionKey(r1, ""))
  {
    var p := "v/";
    OrdOrder(r1, r2);
    assert VersionKey(r1, k1) == p + (EncodeOrd(r1) + ("/" + k1));
    assert VersionKey(r2, k2) == p + (EncodeOrd(r2) + ("/" + k2));
    assert VersionKey(r1, "") == p + (EncodeOrd(r1) + ("/" + ""));
    if r1 < r2 {
      LexHeads(EncodeOrd(r1), "/" + k1, EncodeOrd(r2), "/" + k2);
      LexCommonPrefix(p, EncodeOrd(r1) + ("/" + k1), EncodeOrd(r2) + ("/" + k2));
      LexHeads(EncodeOrd(r1), "/" + "", EncodeOrd(r2), "/" + k2);
      LexCommonPrefix(p, EncodeOrd(r1) + ("/" + ""), EncodeOrd(r2) + ("/" + k2));
      LexTrichotomy(VersionKey(r1, ""), VersionKey(r2, k2));
    } else if r1 == r2 {
      assert VersionKey(r2, k2) == VersionKey(r1, "") + k2;
      assert VersionKey(r2, k2)[..|VersionKey(r1, "")|] == VersionKey(r1, "");
      PrefixBlock(VersionKey(r1, ""), "", VersionKey(r2, k2));
    }
  }

  /** Versions of one key sort numerically inside its `cfg/` block. */
  lemma ConfigOrder(k: string, u: nat, v: nat)
    requires u < TWO_63 && v < TWO_63
    ensures LexLess(ConfigKey(k, u), ConfigKey(k, v)) <==> u < v
  {
    var p := "cfg/" + k + "/";
    OrdOrder(u, v);
    LexCommonPrefix(p, EncodeOrd(u), EncodeOrd(v));
  }
}
