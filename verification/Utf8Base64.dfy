/**
 The two byte encodings under an event cursor: UTF-8 with replacement of malformed bytes, and
 unpadded base64url (RFC 4648 section 5).
 */
module Utf8Base64 {
  import opened Options
  import opened JsonText
  import opened CanonicalJson

  type Octet = n: int | 0 <= n < 256
  const REPLACEMENT: Unit := 0xfffd

  // ---------------------------------------------------------------- UTF-8

  /** The code units of the first scalar value of a text: a pair or one unit. */
  function FirstScalar(t: Text): (units: Text)
    requires |t| > 0
    ensures 0 < |units| <= |t| && units == t[..|units|]
  {
    if High(t[0]) && |t| > 1 && Low(t[1]) then t[..2] else t[..1]
  }

  /** A text of exactly one scalar value. */
  predicate Scalar(units: Text) {
    || (|units| == 1 && !High(units[0]) && !Low(units[0]))
    || (|units| == 2 && High(units[0]) && Low(units[1]))
  }

  function FromPair(high: int, low: int): int {
    0x10000 + (high - 0xd800) * 0x400 + (low - 0xdc00)
  }

  function CodePoint(units: Text): (c: int)
    requires Scalar(units)
    ensures 0 <= c < 0x110000
  {
    if |units| == 1 then units[0] else FromPair(units[0], units[1])
  }

  function Octets(c: int): (bytes: seq<Octet>)
    requires 0 <= c < 0x110000
    ensures |bytes| > 0
  {
    if c < 0x80 then [c]
    else if c < 0x800 then [0xc0 + c / 64, 0x80 + c % 64]
    else if c < 0x10000 then [0xe0 + c / 4096, 0x80 + c / 64 % 64, 0x80 + c % 64]
    else [0xf0 + c / 262144, 0x80 + c / 4096 % 64, 0x80 + c / 64 % 64, 0x80 + c % 64]
  }

  /** The UTF-8 bytes of a text without lone surrogates. */
  function Utf8(t: Text): seq<Octet>
    requires NoLoneSurrogates(t)
    decreases |t|
  {
    if |t| == 0 then []
    else
      FirstIsScalar(t);
      var first := FirstScalar(t);
      Octets(CodePoint(first)) + Utf8(t[|first|..])
  }

  lemma FirstIsScalar(t: Text)
    requires NoLoneSurrogates(t) && |t| > 0
    ensures Scalar(FirstScalar(t)) && NoLoneSurrogates(t[|FirstScalar(t)|..])
  {
    assert Paired(t, 0);
    var rest := t[|FirstScalar(t)|..];
    forall i | 0 <= i < |rest| ensures Paired(rest, i) {
      assert Paired(t, i + |FirstScalar(t)|);
      assert i == 0 && |FirstScalar(t)| == 2 ==> Paired(t, 1);
    }
  }

  predicate Continuation(b: Octet) { 0x80 <= b < 0xc0 }

  /** The payload bits of a byte under its marker. */
  function Low6(b: int, marker: int): int { b - marker }

  function Joined(a: int, b: int, c: int, d: int): int { a * 262144 + b * 4096 + c * 64 + d }

  lemma JoinedDigits(c: int)
    requires 0 <= c < 0x110000
    ensures Joined(c / 262144, c / 4096 % 64, c / 64 % 64, c % 64) == c
  {
    var q, r := c / 64, c / 4096;
    assert r == q / 64 && c / 262144 == r / 64;
    assert c == q * 64 + c % 64 && q == r * 64 + q % 64 && r == r / 64 * 64 + r % 64;
  }

  /** The four digits to base 64 of a joined value, the first of them unbounded. */
  lemma DigitsJoined(a: int, b: int, c: int, d: int)
    requires 0 <= a && 0 <= b < 64 && 0 <= c < 64 && 0 <= d < 64
    ensures var j := Joined(a, b, c, d);
            j / 262144 == a && j / 4096 == a * 64 + b && j / 4096 % 64 == b && j / 64 % 64 == c && j % 64 == d
            && j / 64 == a * 4096 + b * 64 + c
  {
    var j := Joined(a, b, c, d);
    assert j / 64 == a * 4096 + b * 64 + c && j % 64 == d;
    assert j / 4096 == a * 64 + b;
  }

  /** One well-formed sequence at the front: its scalar value and its length. */
  function DecodeOne(b: seq<Octet>): (decoded: Option<(int, nat)>)
    ensures decoded.Some? ==> 0 <= decoded.value.0 < 0x110000 && !(0xd800 <= decoded.value.0 < 0xe000)
    ensures decoded.Some? ==> 0 < decoded.value.1 <= |b|
  {
    if |b| == 0 then None
    else if b[0] < 0x80 then Some((b[0], 1))
    else if 0xc2 <= b[0] < 0xe0 then
      if |b| >= 2 && Continuation(b[1]) then Some((Joined(0, 0, Low6(b[0], 0xc0), Low6(b[1], 0x80)), 2)) else None
    else if 0xe0 <= b[0] < 0xf0 then
      if |b| >= 3 && Continuation(b[1]) && Continuation(b[2]) then
        var c := Joined(0, Low6(b[0], 0xe0), Low6(b[1], 0x80), Low6(b[2], 0x80));
        if c < 0x800 || 0xd800 <= c < 0xe000 then None else Some((c, 3))
      else None
    else if 0xf0 <= b[0] < 0xf5 then
      if |b| >= 4 && Continuation(b[1]) && Continuation(b[2]) && Continuation(b[3]) then
        var c := Joined(Low6(b[0], 0xf0), Low6(b[1], 0x80), Low6(b[2], 0x80), Low6(b[3], 0x80));
        if c < 0x10000 || c >= 0x110000 then None else Some((c, 4))
      else None
    else None
  }

  function Units(c: int): (units: Text)
    requires 0 <= c < 0x110000 && !(0xd800 <= c < 0xe000)
    ensures Scalar(units) && CodePoint(units) == c
  {
    if c < 0x10000 then [c]
    else [0xd800 + (c - 0x10000) / 0x400, 0xdc00 + (c - 0x10000) % 0x400]
  }

  /** How many malformed bytes one U+FFFD stands for: at least one, and exactly one for a byte 0xff. */
  ghost predicate Skips(skip: seq<Octet> -> nat) {
    && (forall b: seq<Octet> :: |b| > 0 ==> 0 < skip(b) <= |b|)
    && (forall b: seq<Octet> :: |b| > 0 && b[0] == 0xff ==> skip(b) == 1)
  }

  /** `bytes.toString("utf8")`. */
  ghost function Lossy(b: seq<Octet>, skip: seq<Octet> -> nat): Text
    requires Skips(skip)
    decreases |b|
  {
    if |b| == 0 then []
    else
      var first := DecodeOne(b);
      if first.Some? then Units(first.value.0) + Lossy(b[first.value.1..], skip)
      else [REPLACEMENT] + Lossy(b[skip(b)..], skip)
  }

  lemma DecodeOctets(c: int, rest: seq<Octet>)
    requires 0 <= c < 0x110000 && !(0xd800 <= c < 0xe000)
    ensures DecodeOne(Octets(c) + rest) == Some((c, |Octets(c)|))
  {
    hide Joined;
    var b := Octets(c) + rest;
    JoinedDigits(c);
    var n := |Octets(c)|;
    assert forall i :: 0 <= i < n ==> b[i] == Octets(c)[i];
    SmallDigits(c);
  }

  /** A value's leading base-64 digits vanish below the size they need. */
  lemma SmallDigits(c: int)
    requires 0 <= c < 0x110000
    ensures c < 0x800 ==> c / 262144 == 0 && c / 4096 % 64 == 0 && c / 64 % 64 == c / 64 && c / 64 < 0x20
    ensures c >= 0x80 ==> c / 64 >= 2
    ensures c < 0x10000 ==> c / 262144 == 0 && c / 4096 % 64 == c / 4096 && c / 4096 < 0x10
    ensures c / 262144 <= 4
  {
  }

  lemma OctetsOfDecoded(b: seq<Octet>)
    requires DecodeOne(b).Some?
    ensures Octets(DecodeOne(b).value.0) == b[..DecodeOne(b).value.1]
  {
    hide Joined;
    var c, n := DecodeOne(b).value.0, DecodeOne(b).value.1;
    if n == 1 {
      assert b[..1] == [b[0]];
    } else if n == 2 {
      TwoOctets(b[0] - 0xc0, b[1] - 0x80);
      assert b[..2] == [b[0], b[1]];
    } else if n == 3 {
      ThreeOctets(b[0] - 0xe0, b[1] - 0x80, b[2] - 0x80);
      assert b[..3] == [b[0], b[1], b[2]];
    } else {
      DigitsJoined(b[0] - 0xf0, b[1] - 0x80, b[2] - 0x80, b[3] - 0x80);
      assert b[..4] == [b[0], b[1], b[2], b[3]];
    }
  }

  lemma TwoOctets(x: int, y: int)
    requires 2 <= x < 0x20 && 0 <= y < 64
    ensures 0x80 <= Joined(0, 0, x, y) < 0x800
    ensures Octets(Joined(0, 0, x, y)) == [0xc0 + x, 0x80 + y]
  {
  }

  lemma ThreeOctets(x: int, y: int, z: int)
    requires 0 <= x < 0x10 && 0 <= y < 64 && 0 <= z < 64
    ensures 0 <= Joined(0, x, y, z) < 0x10000
    ensures Joined(0, x, y, z) >= 0x800 ==> Octets(Joined(0, x, y, z)) == [0xe0 + x, 0x80 + y, 0x80 + z]
  {
    DigitsJoined(0, x, y, z);
  }

  lemma UnitsOfCodePoint(units: Text)
    requires Scalar(units)
    ensures !(0xd800 <= CodePoint(units) < 0xe000) && Units(CodePoint(units)) == units
  {
  }

  /** Decoding undoes encoding, whatever bytes follow. */
  lemma {:induction false} LossyOfUtf8(t: Text, rest: seq<Octet>, skip: seq<Octet> -> nat)
    requires NoLoneSurrogates(t) && Skips(skip)
    ensures Lossy(Utf8(t) + rest, skip) == t + Lossy(rest, skip)
    decreases |t|
  {
    hide DecodeOne, Octets, CodePoint, Units, NoLoneSurrogates, Skips;
    if |t| == 0 {
      assert Utf8(t) + rest == rest;
    } else {
      FirstIsScalar(t);
      var first := FirstScalar(t);
      var after := Utf8(t[|first|..]) + rest;
      UnitsOfCodePoint(first);
      DecodeOctets(CodePoint(first), after);
      assert Utf8(t) + rest == Octets(CodePoint(first)) + after;
      assert (Octets(CodePoint(first)) + after)[|Octets(CodePoint(first))|..] == after;
      LossyOfUtf8(t[|first|..], rest, skip);
      assert first + t[|first|..] == t;
    }
  }

  lemma ScalarThenUtf8(first: Text, rest: Text)
    requires Scalar(first) && NoLoneSurrogates(rest)
    ensures NoLoneSurrogates(first + rest)
    ensures Utf8(first + rest) == Octets(CodePoint(first)) + Utf8(rest)
  {
    hide Octets;
    var t := first + rest;
    forall i | 0 <= i < |t| ensures Paired(t, i) {
      if i >= |first| {
        assert Paired(rest, i - |first|);
      }
    }
    assert FirstScalar(t) == first;
    assert t[|first|..] == rest;
  }

  /** Where nothing was replaced, the bytes were the text's own encoding. */
  lemma {:induction false} NothingReplaced(b: seq<Octet>, skip: seq<Octet> -> nat)
    requires Skips(skip) && REPLACEMENT !in Lossy(b, skip)
    ensures NoLoneSurrogates(Lossy(b, skip)) && Utf8(Lossy(b, skip)) == b
    decreases |b|
  {
    hide DecodeOne, Octets, CodePoint, Units, NoLoneSurrogates, Skips;
    if |b| == 0 {
      EmptyText();
    } else {
      var first := DecodeOne(b);
      if first.Some? {
        var rest := b[first.value.1..];
        assert Lossy(b, skip) == Units(first.value.0) + Lossy(rest, skip);
        NothingReplaced(rest, skip);
        OctetsOfDecoded(b);
        ScalarThenUtf8(Units(first.value.0), Lossy(rest, skip));
        assert b == b[..first.value.1] + rest;
      } else {
        ReplacementShows(b, skip);
      }
    }
  }

  lemma ReplacementShows(b: seq<Octet>, skip: seq<Octet> -> nat)
    requires Skips(skip) && |b| > 0 && DecodeOne(b).None?
    ensures REPLACEMENT in Lossy(b, skip)
  {
  }

  lemma EmptyText()
    ensures NoLoneSurrogates([])
  {
  }

  // ---------------------------------------------------------------- base64url

  function Letter(n: int): Unit
    requires 0 <= n < 64
  {
    if n < 26 then 0x41 + n
    else if n < 52 then 0x61 + n - 26
    else if n < 62 then 0x30 + n - 52
    else if n == 62 then 0x2d
    else 0x5f
  }

  /** The value of a base64 character, in either alphabet. */
  function Sextet(u: Unit): (n: Option<int>)
    ensures n.Some? ==> 0 <= n.value < 64
  {
    if 0x41 <= u <= 0x5a then Some(u - 0x41)
    else if 0x61 <= u <= 0x7a then Some(u - 0x61 + 26)
    else if 0x30 <= u <= 0x39 then Some(u - 0x30 + 52)
    else if u == 0x2d || u == 0x2b then Some(62)
    else if u == 0x5f || u == 0x2f then Some(63)
    else None
  }

  function Encode64(b: seq<Octet>): Text
    decreases |b|
  {
    if |b| == 0 then []
    else if |b| == 1 then [Letter(b[0] / 4), Letter(b[0] % 4 * 16)]
    else if |b| == 2 then [Letter(b[0] / 4), Letter(b[0] % 4 * 16 + b[1] / 16), Letter(b[1] % 16 * 4)]
    else [Letter(b[0] / 4), Letter(b[0] % 4 * 16 + b[1] / 16), Letter(b[1] % 16 * 4 + b[2] / 64), Letter(b[2] % 64)]
         + Encode64(b[3..])
  }

  type Six = n: int | 0 <= n < 64

  /** A lenient decoder reads past every character it does not know. */
  function Sextets(t: Text): seq<Six> {
    if |t| == 0 then []
    else (if Sextet(t[0]).Some? then [Sextet(t[0]).value] else []) + Sextets(t[1..])
  }

  function Upper(x: int, y: int): (byte: Octet)
    requires 0 <= x < 64 && 0 <= y < 64
  {
    x * 4 + y / 16
  }

  function Middle(x: int, y: int): (byte: Octet)
    requires 0 <= x < 64 && 0 <= y < 64
  {
    x % 16 * 16 + y / 4
  }

  function Lower(x: int, y: int): (byte: Octet)
    requires 0 <= x < 64 && 0 <= y < 64
  {
    x % 4 * 64 + y
  }

  lemma BytesOfSextets(a: int, b: int, c: int)
    requires 0 <= a < 256 && 0 <= b < 256 && 0 <= c < 256
    ensures Upper(a / 4, a % 4 * 16 + b / 16) == a
    ensures Middle(a % 4 * 16 + b / 16, b % 16 * 4 + c / 64) == b
    ensures Lower(b % 16 * 4 + c / 64, c % 64) == c
  {
  }

  function FromSextets(s: seq<Six>): seq<Octet>
    decreases |s|
  {
    if |s| < 2 then []
    else if |s| == 2 then [Upper(s[0], s[1])]
    else if |s| == 3 then [Upper(s[0], s[1]), Middle(s[1], s[2])]
    else [Upper(s[0], s[1]), Middle(s[1], s[2]), Lower(s[2], s[3])] + FromSextets(s[4..])
  }

  /** `Buffer.from(text, "base64url")`. */
  function Decode64(t: Text): seq<Octet> {
    FromSextets(Sextets(t))
  }

  lemma SextetsOfLetters(n: Six, rest: Text)
    ensures Sextets([Letter(n)] + rest) == [n] + Sextets(rest)
  {
  }

  lemma {:induction false} DecodeOfEncode64(b: seq<Octet>)
    ensures Decode64(Encode64(b)) == b
    decreases |b|
  {
    hide Sextet, Letter, Sextets, Upper, Middle, Lower;
    NoSextets();
    if |b| == 1 {
      SextetsOfLetters(b[0] % 4 * 16, []);
      SextetsOfLetters(b[0] / 4, [Letter(b[0] % 4 * 16)]);
      assert [Letter(b[0] / 4)] + [Letter(b[0] % 4 * 16)] == Encode64(b);
      assert [Letter(b[0] % 4 * 16)] + [] == [Letter(b[0] % 4 * 16)];
      assert Sextets(Encode64(b)) == [b[0] / 4, b[0] % 4 * 16];
      BytesOfSextets(b[0], 0, 0);
    } else if |b| == 2 {
      TwoBytes(b);
    } else if |b| > 2 {
      ThreeBytes(b);
      DecodeOfEncode64(b[3..]);
    }
  }

  lemma NoSextets()
    ensures Sextets([]) == []
  {
  }

  lemma TwoBytes(b: seq<Octet>)
    requires |b| == 2
    ensures Decode64(Encode64(b)) == b
  {
    hide Sextet, Letter, Sextets, Upper, Middle, Lower;
    NoSextets();
    var x, y, z := b[0] / 4, b[0] % 4 * 16 + b[1] / 16, b[1] % 16 * 4;
    SextetsOfLetters(z, []);
    SextetsOfLetters(y, [Letter(z)]);
    SextetsOfLetters(x, [Letter(y), Letter(z)]);
    assert [Letter(z)] + [] == [Letter(z)];
    assert [Letter(y)] + [Letter(z)] == [Letter(y), Letter(z)];
    assert [Letter(x)] + [Letter(y), Letter(z)] == Encode64(b);
    assert Sextets(Encode64(b)) == [x, y, z];
    BytesOfSextets(b[0], b[1], 0);
  }

  lemma {:induction false} FourSextets(a: Six, b: Six, c: Six, d: Six, rest: seq<Six>)
    ensures FromSextets([a, b, c, d] + rest) == [Upper(a, b), Middle(b, c), Lower(c, d)] + FromSextets(rest)
  {
  }

  lemma {:induction false} SextetsOfFour(a: Six, b: Six, c: Six, d: Six, rest: Text)
    ensures Sextets([Letter(a), Letter(b), Letter(c), Letter(d)] + rest) == [a, b, c, d] + Sextets(rest)
  {
    hide Letter, Sextets;
    SextetsOfLetters(d, rest);
    SextetsOfLetters(c, [Letter(d)] + rest);
    SextetsOfLetters(b, [Letter(c)] + ([Letter(d)] + rest));
    SextetsOfLetters(a, [Letter(b)] + ([Letter(c)] + ([Letter(d)] + rest)));
    assert [Letter(a), Letter(b), Letter(c), Letter(d)] + rest
           == [Letter(a)] + ([Letter(b)] + ([Letter(c)] + ([Letter(d)] + rest)));
    assert [a] + ([b] + ([c] + ([d] + Sextets(rest)))) == [a, b, c, d] + Sextets(rest);
  }

  lemma {:induction false} ThreeBytes(b: seq<Octet>)
    requires |b| > 2
    ensures Decode64(Encode64(b)) == [b[0], b[1], b[2]] + Decode64(Encode64(b[3..]))
    ensures b == [b[0], b[1], b[2]] + b[3..]
  {
    hide Letter, Sextets, Upper, Middle, Lower, FromSextets;
    var w, x, y, z := b[0] / 4, b[0] % 4 * 16 + b[1] / 16, b[1] % 16 * 4 + b[2] / 64, b[2] % 64;
    var rest := Encode64(b[3..]);
    SextetsOfFour(w, x, y, z, rest);
    FourSextets(w, x, y, z, Sextets(rest));
    BytesOfSextets(b[0], b[1], b[2]);
  }

  /** Re-encoding tells exactly the texts that are an encoding: trailing bits and stray characters are refused. */
  lemma OnlyCanonicalReencodes(t: Text)
    ensures Encode64(Decode64(t)) == t <==> exists b :: t == Encode64(b)
  {
    if b :| t == Encode64(b) {
      DecodeOfEncode64(b);
    }
  }
}
