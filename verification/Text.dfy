/** Hexadecimal and decimal text (string_helper.cpp), and the processed-packet key built from both. */
module Text {
  import opened Bytes

  const UNDERSCORE: byte := 95

  /** The bytes of an ASCII literal. */
  function Ascii(s: string): (r: bytes)
    ensures |r| == |s|
  {
    seq(|s|, i requires 0 <= i < |s| => if (s[i] as int) < 128 then s[i] as int else 63)
  }

  function HexDigit(n: nat): (c: byte)
    requires n < 16
    ensures HexValue(c) == Some(n)
    ensures c != UNDERSCORE
  {
    if n < 10 then 48 + n else 87 + n
  }

  /** The value of a hexadecimal digit in either case. */
  function HexValue(c: byte): (r: Option<nat>)
    ensures r.Some? ==> r.value < 16
  {
    if 48 <= c <= 57 then Some(c - 48)
    else if 97 <= c <= 102 then Some(c - 87)
    else if 65 <= c <= 70 then Some(c - 55)
    else None
  }

  predicate IsSpace(c: byte) {
    c == 32 || 9 <= c <= 13
  }

  /** std::stoi(s, nullptr, 16) cast to uint8_t, for a two-character string; None is its exception. */
  function Stoi16(a: byte, b: byte): (r: Option<byte>)
    ensures HexValue(a).Some? && HexValue(b).Some? ==> r == Some(16 * HexValue(a).value + HexValue(b).value)
  {
    match (HexValue(a), HexValue(b))
    case (Some(x), Some(y)) => Some(16 * x + y)
    case (Some(x), None) => Some(x)
    case (None, Some(y)) =>
      if IsSpace(a) || a == 43 then Some(y)
      else if a == 45 then Some((256 - y) % 256)
      else None
    case (None, None) => None
  }

  function HexOf(s: bytes): (r: bytes)
    ensures |r| == 2 * |s|
  {
    if s == [] then [] else [HexDigit(s[0] / 16), HexDigit(s[0] % 16)] + HexOf(s[1..])
  }

  /** stringToVector: odd lengths give the empty vector; None is an exception of stoi. */
  function FromHex(s: bytes): (r: Option<bytes>) {
    if |s| % 2 != 0 then Some([]) else FromHexPairs(s)
  }

  function FromHexPairs(s: bytes): (r: Option<bytes>)
    requires |s| % 2 == 0
  {
    if s == [] then Some([])
    else match Stoi16(s[0], s[1])
         case Some(b) => Prepend([b], FromHexPairs(s[2..]))
         case None => None
  }

  /** The reading of a peer ID inside a message: bad pairs are skipped, an odd last digit is ignored. */
  function LenientHex(s: bytes): (r: bytes) {
    if |s| < 2 then []
    else (match Stoi16(s[0], s[1]) case Some(b) => [b] case None => []) + LenientHex(s[2..])
  }

  function Prepend(s: bytes, tail: Option<bytes>): (r: Option<bytes>) {
    match tail case Some(t) => Some(s + t) case None => None
  }

  lemma {:induction false} HexAt(s: bytes, i: nat)
    requires i < |s|
    ensures HexOf(s)[2 * i] == HexDigit(s[i] / 16) && HexOf(s)[2 * i + 1] == HexDigit(s[i] % 16)
  {
    if i > 0 {
      HexAt(s[1..], i - 1);
    }
  }

  /** Decoding a peer ID string gives back the bytes it was printed from. */
  lemma {:induction false} HexRoundTrip(s: bytes)
    ensures FromHex(HexOf(s)) == Some(s)
  {
    if s != [] {
      HexRoundTrip(s[1..]);
      assert HexOf(s)[2..] == HexOf(s[1..]);
      assert s == [s[0]] + s[1..];
    }
  }

  /** A printed peer ID cut at `n` characters reads back as its first `n / 2` bytes. */
  lemma {:induction false} ClippedHexRoundTrip(s: bytes, n: nat)
    ensures LenientHex(Clip(HexOf(s), n)) == Clip(s, n / 2)
  {
    if s != [] && n >= 2 {
      ClippedHexRoundTrip(s[1..], n - 2);
      assert Clip(HexOf(s), n)[2..] == Clip(HexOf(s[1..]), n - 2);
      assert Clip(s, n / 2) == [s[0]] + Clip(s[1..], (n - 2) / 2);
    }
  }

  lemma HexInjective(s: bytes, t: bytes)
    requires HexOf(s) == HexOf(t)
    ensures s == t
  {
    HexRoundTrip(s);
    HexRoundTrip(t);
  }

  /** Made of lower-case hexadecimal digits only, as every printed peer ID is. */
  predicate HexText(s: bytes) {
    forall i :: 0 <= i < |s| ==> 48 <= s[i] <= 57 || 97 <= s[i] <= 102
  }

  lemma {:induction false} HexOfIsHexText(s: bytes)
    ensures HexText(HexOf(s))
  {
    if s != [] {
      HexOfIsHexText(s[1..]);
    }
  }

  lemma {:induction false} HexHasNoUnderscore(s: bytes)
    ensures UNDERSCORE !in HexOf(s)
  {
    if s != [] {
      HexHasNoUnderscore(s[1..]);
    }
  }

  /** std::to_string of an unsigned integer. */
  function Decimal(n: nat): (r: bytes) {
    if n < 10 then [48 + n] else Decimal(n / 10) + [48 + n % 10]
  }

  function FromDecimal(s: bytes): (r: int) {
    if s == [] then 0 else 10 * FromDecimal(s[..|s| - 1]) + s[|s| - 1] - 48
  }

  lemma {:induction false} DecimalRoundTrip(n: nat)
    ensures FromDecimal(Decimal(n)) == n
  {
    if n >= 10 {
      DecimalRoundTrip(n / 10);
      assert Decimal(n)[..|Decimal(n)| - 1] == Decimal(n / 10);
    } else {
      assert Decimal(n)[..0] == [];
    }
  }

  /** The string under which a packet is remembered as processed. */
  function PacketKey(sender: bytes, timestamp: nat): (r: bytes) {
    HexOf(sender) + [UNDERSCORE] + Decimal(timestamp)
  }

  /** Two packets share a key exactly when they share sender and timestamp. */
  lemma PacketKeyInjective(s: bytes, t: nat, s': bytes, t': nat)
    ensures PacketKey(s, t) == PacketKey(s', t') <==> s == s' && t == t'
  {
    if PacketKey(s, t) == PacketKey(s', t') {
      var k := PacketKey(s, t);
      HexHasNoUnderscore(s);
      HexHasNoUnderscore(s');
      assert k[|HexOf(s)|] == UNDERSCORE && k[|HexOf(s')|] == UNDERSCORE;
      assert forall i :: 0 <= i < |HexOf(s)| ==> k[i] == HexOf(s)[i];
      assert forall i :: 0 <= i < |HexOf(s')| ==> k[i] == HexOf(s')[i];
      assert |HexOf(s)| == |HexOf(s')|;
      assert HexOf(s) == k[..|HexOf(s)|] == HexOf(s');
      HexInjective(s, s');
      assert Decimal(t) == k[|HexOf(s)| + 1..] == Decimal(t');
      DecimalRoundTrip(t);
      DecimalRoundTrip(t');
    }
  }

  /** std::string's operator<: byte-wise lexicographic order. */
  predicate Less(a: bytes, b: bytes) {
    if b == [] then false
    else if a == [] then true
    else a[0] < b[0] || (a[0] == b[0] && Less(a[1..], b[1..]))
  }

  /** The order is strict and total. */
  lemma {:induction false} LessTrichotomy(a: bytes, b: bytes)
    ensures Less(a, b) ==> !Less(b, a) && a != b
    ensures a != b ==> Less(a, b) || Less(b, a)
  {
    if a != [] && b != [] && a[0] == b[0] {
      LessTrichotomy(a[1..], b[1..]);
      assert a == [a[0]] + a[1..] && b == [b[0]] + b[1..];
    }
  }

  /** `k` is where `a` and `b` first differ: there `a` has the smaller byte, or has ended. */
  predicate SmallerAt(a: bytes, b: bytes, k: nat) {
    k <= |a| && k < |b| && a[..k] == b[..k] && (k < |a| ==> a[k] < b[k])
  }

  lemma {:induction false} SmallerIsLess(a: bytes, b: bytes, k: nat)
    requires SmallerAt(a, b, k)
    ensures Less(a, b)
  {
    if k > 0 {
      assert a[0] == a[..k][0] == b[..k][0] == b[0];
      assert a[1..][..k - 1] == a[..k][1..] && b[1..][..k - 1] == b[..k][1..];
      SmallerIsLess(a[1..], b[1..], k - 1);
    }
  }

  lemma {:induction false} LessIsSmaller(a: bytes, b: bytes) returns (k: nat)
    requires Less(a, b)
    ensures SmallerAt(a, b, k)
  {
    if a == [] || a[0] < b[0] {
      k := 0;
    } else {
      k := LessIsSmaller(a[1..], b[1..]);
      assert a[..k + 1] == [a[0]] + a[1..][..k] && b[..k + 1] == [b[0]] + b[1..][..k];
      k := k + 1;
    }
  }

  /** The order of std::string: by the first byte that differs, or as a proper prefix. */
  lemma LessByFirstDifference(a: bytes, b: bytes)
    ensures Less(a, b) <==> exists k: nat :: SmallerAt(a, b, k)
  {
    if Less(a, b) {
      var k := LessIsSmaller(a, b);
    } else {
      forall k: nat | SmallerAt(a, b, k) ensures false {
        SmallerIsLess(a, b, k);
      }
    }
  }

  lemma DigitsKeepOrder(x: byte, y: byte)
    requires x < y
    ensures HexDigit(x / 16) < HexDigit(y / 16)
            || (HexDigit(x / 16) == HexDigit(y / 16) && HexDigit(x % 16) < HexDigit(y % 16))
  {
  }

  /** Printed IDs are ordered as the bytes they stand for. */
  lemma {:induction false} HexKeepsOrder(a: bytes, b: bytes)
    ensures Less(HexOf(a), HexOf(b)) <==> Less(a, b)
  {
    if a != [] && b != [] {
      var s, t := HexOf(a), HexOf(b);
      assert s[1..][1..] == HexOf(a[1..]) && t[1..][1..] == HexOf(b[1..]);
      HexKeepsOrder(a[1..], b[1..]);
      if a[0] < b[0] {
        DigitsKeepOrder(a[0], b[0]);
      } else if b[0] < a[0] {
        DigitsKeepOrder(b[0], a[0]);
      }
    }
  }

  method ToHex(data: bytes) returns (text: bytes)
    ensures text == HexOf(data)
  {
    text := [];
    for i := 0 to |data|
      invariant |text| == 2 * i
      invariant text == HexOf(data)[..2 * i]
    {
      HexAt(data, i);
      text := text + [HexDigit(data[i] / 16)] + [HexDigit(data[i] % 16)];
    }
  }

  method StringToVector(text: bytes) returns (result: Option<bytes>)
    ensures result == FromHex(text)
  {
    if |text| % 2 != 0 {
      return Some([]);
    }
    var acc: bytes := [];
    var i := 0;
    assert text[0..] == text;
    assert FromHexPairs(text).Some? ==> acc + FromHexPairs(text).value == FromHexPairs(text).value;
    while i < |text|
      invariant 0 <= i <= |text| && i % 2 == 0
      invariant FromHexPairs(text) == Prepend(acc, FromHexPairs(text[i..]))
    {
      var b := Stoi16(text[i], text[i + 1]);
      assert text[i..][2..] == text[i + 2..];
      if b.None? {
        return None;
      }
      var rest := FromHexPairs(text[i + 2..]);
      assert rest.Some? ==> acc + ([b.value] + rest.value) == (acc + [b.value]) + rest.value;
      acc := acc + [b.value];
      i := i + 2;
    }
    assert acc + [] == acc;
    result := Some(acc);
  }
}
