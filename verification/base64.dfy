/** The base64 codec, with the masks and shifts of the code, against the bit-group definition
    in section 4 of RFC 4648.  Characters are bytes, as in the code. */
module Base64 {
  const PAD: bv8 := 61  // '='

  /** `isalnum` in the C locale, or one of '+' and '/'. */
  predicate IsBase64(c: bv8) {
    65 <= c <= 90 || 97 <= c <= 122 || 48 <= c <= 57 || c == 43 || c == 47
  }

  /** The alphabet: 'A' to 'Z', 'a' to 'z', '0' to '9', '+', '/'. */
  function Letter(v: bv8): bv8
    requires v < 64
  {
    if v < 26 then v + 65 else if v < 52 then v + 71 else if v < 62 then v - 4 else if v == 62 then 43 else 47
  }

  /** `base64_chars.find`, cut to a byte: a character that is not there gives 255. */
  function Value(c: bv8): bv8 {
    if 65 <= c <= 90 then c - 65 else if 97 <= c <= 122 then c - 71 else if 48 <= c <= 57 then c + 4
    else if c == 43 then 62 else if c == 47 then 63 else 255
  }

  /** The alphabet of table 1 in RFC 4648. */
  const ALPHABET: string := "ABCDEFGHIJKLMNOPQRSTUVWXYZ" + "abcdefghijklmnopqrstuvwxyz" + "0123456789+/"

  lemma LetterIsIndexed(v: bv8)
    requires v < 64
    ensures |ALPHABET| == 64 && Letter(v) as int == ALPHABET[v as int] as int
  {
    var i := v as int;
    assert v < 26 ==> ALPHABET[i] == "ABCDEFGHIJKLMNOPQRSTUVWXYZ"[i];
    assert 26 <= v < 52 ==> ALPHABET[i] == "abcdefghijklmnopqrstuvwxyz"[i - 26];
    assert 52 <= v < 64 ==> ALPHABET[i] == "0123456789+/"[i - 52];
  }

  /** The alphabet and its inverse. */
  lemma ValueOfLetter(v: bv8)
    requires v < 64
    ensures IsBase64(Letter(v)) && Value(Letter(v)) == v
  {
  }

  lemma LetterOfValue(c: bv8)
    requires IsBase64(c)
    ensures Value(c) < 64 && Letter(Value(c)) == c
  {
  }

  /** `char_array_4` from `char_array_3`. */
  function Sextets(a: bv8, b: bv8, c: bv8): (r: (bv8, bv8, bv8, bv8))
    ensures r.0 < 64 && r.1 < 64 && r.2 < 64 && r.3 < 64
  {
    ((a & 0xfc) >> 2,
     ((a & 0x03) << 4) + ((b & 0xf0) >> 4),
     ((b & 0x0f) << 2) + ((c & 0xc0) >> 6),
     c & 0x3f)
  }

  /** `char_array_3` from `char_array_4`. */
  function Octets(p: bv8, q: bv8, r: bv8, s: bv8): (bv8, bv8, bv8) {
    ((p << 2) + ((q & 0x30) >> 4),
     ((q & 0xf) << 4) + ((r & 0x3c) >> 2),
     ((r & 0x3) << 6) + s)
  }

  lemma OctetsOfSextets(a: bv8, b: bv8, c: bv8)
    ensures var (p, q, r, s) := Sextets(a, b, c); Octets(p, q, r, s) == (a, b, c)
  {
  }

  lemma SextetsOfOctets(p: bv8, q: bv8, r: bv8, s: bv8)
    requires p < 64 && q < 64 && r < 64 && s < 64
    ensures var (a, b, c) := Octets(p, q, r, s); Sextets(a, b, c) == (p, q, r, s)
  {
  }

  function Letters(a: bv8, b: bv8, c: bv8): (r: seq<bv8>)
    ensures |r| == 4
  {
    var (p, q, r, s) := Sextets(a, b, c);
    [Letter(p), Letter(q), Letter(r), Letter(s)]
  }

  /** The last one or two bytes, with missing bytes as zero and missing letters as padding. */
  function LastLetters(x: seq<bv8>): (r: seq<bv8>)
    requires 1 <= |x| <= 2
    ensures |r| == 4
  {
    var l := Letters(x[0], if |x| > 1 then x[1] else 0, 0);
    if |x| == 1 then l[..2] + [PAD, PAD] else l[..3] + [PAD]
  }

  function Encode(x: seq<bv8>): seq<bv8> {
    if |x| == 0 then []
    else if |x| < 3 then LastLetters(x)
    else Letters(x[0], x[1], x[2]) + Encode(x[3..])
  }

  /** The characters before the first one that is not in the alphabet. */
  function Text(s: seq<bv8>): seq<bv8> {
    if s == [] || !IsBase64(s[0]) then [] else [s[0]] + Text(s[1..])
  }

  function Bytes4(t: seq<bv8>): (r: seq<bv8>)
    requires |t| == 4
    ensures |r| == 3
  {
    var (a, b, c) := Octets(Value(t[0]), Value(t[1]), Value(t[2]), Value(t[3]));
    [a, b, c]
  }

  /** Two or three letters left over give one or two bytes; a single one gives none.  Missing
      letters are looked up as the zero byte. */
  function DecodeText(t: seq<bv8>): seq<bv8> {
    if |t| <= 1 then []
    else if |t| < 4 then Bytes4(t + seq(4 - |t|, _ => 0))[..|t| - 1]
    else Bytes4(t[..4]) + DecodeText(t[4..])
  }

  function Decode(s: seq<bv8>): seq<bv8> {
    DecodeText(Text(s))
  }

  // ---------------------------------------------------------------------------------------
  // The loops
  // ---------------------------------------------------------------------------------------

  lemma {:induction false} EncodeAppend(a: seq<bv8>, b: seq<bv8>)
    requires |a| % 3 == 0
    ensures Encode(a + b) == Encode(a) + Encode(b)
    decreases |a|
  {
    hide Letters, LastLetters;
    if a == [] {
      assert a + b == b;
    } else {
      EncodeAppend(a[3..], b);
      assert (a + b)[3..] == a[3..] + b;
      assert (a + b)[0] == a[0] && (a + b)[1] == a[1] && (a + b)[2] == a[2];
    }
  }

  lemma EncodeNothing()
    ensures Encode([]) == []
  {
  }

  method EncodeBytes(x: seq<bv8>) returns (ret: seq<bv8>)
    ensures ret == Encode(x)
  {
    hide Encode, Letters;
    EncodeNothing();
    ret := [];
    var i := 0;
    var octets := new bv8[3];
    var n := 0;
    while n < |x|
      invariant 0 <= n <= |x| && 0 <= i < 3 && i <= n && (n - i) % 3 == 0
      invariant forall k :: 0 <= k < i ==> octets[k] == x[n - i + k]
      invariant ret == Encode(x[..n - i])
    {
      octets[i] := x[n];
      i := i + 1;
      n := n + 1;
      if i == 3 {
        OneBlock(x, n - 3);
        ret := ret + Letters(octets[0], octets[1], octets[2]);
        i := 0;
      }
    }
    EncodeAppend(x[..n - i], x[n - i..]);
    assert x == x[..n - i] + x[n - i..];
    if i != 0 {
      var tail := EncodeTail(octets, i, x[n - i..]);
      ret := ret + tail;
    }
  }

  method EncodeTail(octets: array<bv8>, i: nat, ghost last: seq<bv8>) returns (tail: seq<bv8>)
    requires octets.Length == 3 && 1 <= i == |last| <= 2 && forall k :: 0 <= k < i ==> octets[k] == last[k]
    modifies octets
    ensures tail == Encode(last)
  {
    for j := i to 3
      invariant i <= j && forall k :: 0 <= k < i ==> octets[k] == last[k]
      invariant forall k :: i <= k < j ==> octets[k] == 0
    {
      octets[j] := 0;
    }
    var (p, q, r, s) := Sextets(octets[0], octets[1], octets[2]);
    var sextets := [Letter(p), Letter(q), Letter(r), Letter(s)];
    tail := [];
    for j := 0 to i + 1
      invariant tail == sextets[..j]
    {
      tail := tail + [sextets[j]];
    }
    var k := i;
    while k < 3
      invariant i <= k <= 3 && tail == sextets[..i + 1] + seq(k - i, _ => PAD)
    {
      tail := tail + [PAD];
      k := k + 1;
    }
    assert octets[0] == last[0] && octets[1] == if i == 2 then last[1] else 0;
    assert sextets == Letters(last[0], if i == 2 then last[1] else 0, 0);
  }

  lemma OneBlock(x: seq<bv8>, n: nat)
    requires n + 3 <= |x| && n % 3 == 0
    ensures Encode(x[..n + 3]) == Encode(x[..n]) + Letters(x[n], x[n + 1], x[n + 2])
  {
    var block := x[n..n + 3];
    assert x[..n + 3] == x[..n] + block;
    EncodeAppend(x[..n], block);
    assert block[3..] == [];
    assert Encode(block) == Letters(x[n], x[n + 1], x[n + 2]) + [];
  }

  lemma {:induction false} DecodeAppend(a: seq<bv8>, b: seq<bv8>)
    requires |a| % 4 == 0
    ensures DecodeText(a + b) == DecodeText(a) + DecodeText(b)
    decreases |a|
  {
    hide Bytes4;
    if a == [] {
      assert a + b == b;
    } else {
      DecodeAppend(a[4..], b);
      assert (a + b)[4..] == a[4..] + b && (a + b)[..4] == a[..4];
    }
  }

  /** Where the decoding loop stops. */
  lemma {:induction false} TextIs(s: seq<bv8>, n: nat)
    requires n <= |s| && (forall k :: 0 <= k < n ==> IsBase64(s[k])) && (n < |s| ==> !IsBase64(s[n]))
    ensures Text(s) == s[..n]
    decreases n
  {
    if n > 0 {
      TextIs(s[1..], n - 1);
      assert s[..n] == [s[0]] + s[1..][..n - 1];
    }
  }

  lemma WholeText(s: seq<bv8>, n: nat, i: nat)
    requires i <= n <= |s| && (forall k :: 0 <= k < n ==> IsBase64(s[k])) && (n < |s| ==> !IsBase64(s[n]))
    requires (n - i) % 4 == 0
    ensures Decode(s) == DecodeText(s[..n - i]) + DecodeText(s[n - i..n])
  {
    hide Bytes4;
    TextIs(s, n);
    DecodeAppend(s[..n - i], s[n - i..n]);
    assert s[..n] == s[..n - i] + s[n - i..n];
  }

  lemma NothingToDecode()
    ensures DecodeText([]) == []
  {
  }

  method DecodeString(s: seq<bv8>) returns (ret: seq<bv8>)
    ensures ret == Decode(s)
  {
    hide Bytes4, DecodeText;
    ret := [];
    NothingToDecode();
    assert s[..0] == [];
    var i, n := 0, 0;
    var sextets := new bv8[4];
    while n < |s| && s[n] != PAD && IsBase64(s[n])
      invariant 0 <= n <= |s| && 0 <= i < 4 && i <= n && (n - i) % 4 == 0
      invariant forall k :: 0 <= k < n ==> IsBase64(s[k])
      invariant forall k :: 0 <= k < i ==> sextets[k] == s[n - i + k]
      invariant ret == DecodeText(s[..n - i])
    {
      sextets[i] := s[n];
      i := i + 1;
      n := n + 1;
      assert forall k :: 0 <= k < i ==> sextets[k] == s[n - i + k];
      if i == 4 {
        OneGroup(s, n - 4);
        assert sextets[..] == s[n - 4..n];
        ret := ret + Bytes4(sextets[..]);
        i := 0;
      }
    }
    WholeText(s, n, i);
    assert s[n..n] == [];
    if i != 0 {
      var tail := DecodeTail(sextets, i, s[n - i..n]);
      ret := ret + tail;
    }
  }

  method DecodeTail(sextets: array<bv8>, i: nat, ghost last: seq<bv8>) returns (tail: seq<bv8>)
    requires sextets.Length == 4 && 1 <= i == |last| <= 3 && forall k :: 0 <= k < i ==> sextets[k] == last[k]
    modifies sextets
    ensures tail == DecodeText(last)
  {
    for j := i to 4
      invariant i <= j && forall k :: 0 <= k < i ==> sextets[k] == last[k]
      invariant forall k :: i <= k < j ==> sextets[k] == 0
    {
      sextets[j] := 0;
    }
    assert sextets[..] == last + seq(4 - i, _ => 0);
    var (a, b, c) := Octets(Value(sextets[0]), Value(sextets[1]), Value(sextets[2]), Value(sextets[3]));
    var octets := [a, b, c];
    assert octets == Bytes4(sextets[..]);
    tail := [];
    for j := 0 to i - 1
      invariant tail == octets[..j]
    {
      tail := tail + [octets[j]];
    }
  }

  lemma OneGroup(s: seq<bv8>, n: nat)
    requires n + 4 <= |s| && n % 4 == 0
    ensures DecodeText(s[..n + 4]) == DecodeText(s[..n]) + Bytes4(s[n..n + 4])
  {
    var group := s[n..n + 4];
    assert s[..n + 4] == s[..n] + group;
    DecodeAppend(s[..n], group);
    assert group[..4] == group && group[4..] == [];
    assert DecodeText(group) == Bytes4(group) + [];
  }

  // ---------------------------------------------------------------------------------------
  // Main results
  // ---------------------------------------------------------------------------------------

  lemma {:induction false} TextAppend(a: seq<bv8>, b: seq<bv8>)
    requires forall k :: 0 <= k < |a| ==> IsBase64(a[k])
    ensures Text(a + b) == a + Text(b)
    decreases |a|
  {
    if a == [] {
      assert a + b == b;
    } else {
      TextAppend(a[1..], b);
      assert (a + b)[1..] == a[1..] + b;
    }
  }

  lemma LettersDecode(a: bv8, b: bv8, c: bv8)
    ensures forall k :: 0 <= k < 4 ==> IsBase64(Letters(a, b, c)[k])
    ensures Bytes4(Letters(a, b, c)) == [a, b, c]
  {
    var (p, q, r, s) := Sextets(a, b, c);
    ValueOfLetter(p);
    ValueOfLetter(q);
    ValueOfLetter(r);
    ValueOfLetter(s);
    OctetsOfSextets(a, b, c);
  }

  lemma LastDecodes(x: seq<bv8>)
    requires 1 <= |x| <= 2
    ensures Decode(LastLetters(x)) == x
  {
    var l := Letters(x[0], if |x| > 1 then x[1] else 0, 0);
    LettersDecode(x[0], if |x| > 1 then x[1] else 0, 0);
    var t := l[..|x| + 1];
    var pad := if |x| == 1 then [PAD, PAD] else [PAD];
    TextAppend(t, pad);
    assert LastLetters(x) == t + pad && Text(pad) == [] && Text(LastLetters(x)) == t;
    LastOctets(x[0], if |x| > 1 then x[1] else 0);
  }

  /** The bytes given out do not depend on the letters that were dropped. */
  lemma LastOctets(a: bv8, b: bv8)
    ensures var (p, q, r, s) := Sextets(a, b, 0); Octets(p, q, r, 255).0 == a && Octets(p, q, r, 255).1 == b
    ensures var (p, q, r, s) := Sextets(a, 0, 0); Octets(p, q, 255, 255).0 == a
  {
  }

  /** Decoding an encoding gives back the bytes. */
  lemma {:induction false} RoundTrip(x: seq<bv8>)
    ensures Decode(Encode(x)) == x
    decreases |x|
  {
    if 1 <= |x| < 3 {
      LastDecodes(x);
    } else if |x| >= 3 {
      RoundTrip(x[3..]);
      var l := Letters(x[0], x[1], x[2]);
      LettersDecode(x[0], x[1], x[2]);
      TextAppend(l, Encode(x[3..]));
      DecodeAppend(l, Text(Encode(x[3..])));
      assert l[..4] == l && l[4..] == [];
      assert x == [x[0], x[1], x[2]] + x[3..];
    }
  }

  /** Letters in groups of four, the last group perhaps padded and then with zero unused bits. */
  predicate Canonical(s: seq<bv8>) {
    if |s| == 0 then true
    else if |s| < 4 then false
    else if |s| == 4 then
      && IsBase64(s[0]) && IsBase64(s[1])
      && if s[2] == PAD then s[3] == PAD && Value(s[1]) & 0xf == 0
         else IsBase64(s[2]) && if s[3] == PAD then Value(s[2]) & 0x3 == 0 else IsBase64(s[3])
    else IsBase64(s[0]) && IsBase64(s[1]) && IsBase64(s[2]) && IsBase64(s[3]) && Canonical(s[4..])
  }

  lemma {:induction false} EncodeIsCanonical(x: seq<bv8>)
    ensures Canonical(Encode(x)) && |Encode(x)| == 4 * ((|x| + 2) / 3)
    decreases |x|
  {
    if 1 <= |x| < 3 {
      LastCanonical(x);
    } else if |x| >= 3 {
      EncodeIsCanonical(x[3..]);
      LettersDecode(x[0], x[1], x[2]);
      assert Encode(x)[4..] == Encode(x[3..]);
      assert (|x| + 2) / 3 == (|x[3..]| + 2) / 3 + 1;
    }
  }

  lemma LastCanonical(x: seq<bv8>)
    requires 1 <= |x| <= 2
    ensures Canonical(LastLetters(x))
  {
    var b: bv8 := if |x| > 1 then x[1] else 0;
    LettersDecode(x[0], b, 0);
    var (p, q, r, s) := Sextets(x[0], b, 0);
    ValueOfLetter(q);
    ValueOfLetter(r);
  }

  lemma GroupEncodes(t: seq<bv8>)
    requires |t| == 4 && forall k :: 0 <= k < 4 ==> IsBase64(t[k])
    ensures var b := Bytes4(t); Letters(b[0], b[1], b[2]) == t
  {
    LetterOfValue(t[0]);
    LetterOfValue(t[1]);
    LetterOfValue(t[2]);
    LetterOfValue(t[3]);
    SextetsOfOctets(Value(t[0]), Value(t[1]), Value(t[2]), Value(t[3]));
  }

  lemma PaddedEncodes(s: seq<bv8>)
    requires |s| == 4 && Canonical(s) && s[3] == PAD
    ensures Encode(Decode(s)) == s
  {
    if s[2] == PAD {
      TwoLetters(s);
    } else {
      ThreeLetters(s);
    }
  }

  lemma TwoLetters(s: seq<bv8>)
    requires |s| == 4 && IsBase64(s[0]) && IsBase64(s[1]) && s[2] == PAD && s[3] == PAD && Value(s[1]) & 0xf == 0
    ensures Encode(Decode(s)) == s
  {
    LetterOfValue(s[0]);
    LetterOfValue(s[1]);
    TextIs(s, 2);
    PaddedOctets(Value(s[0]), Value(s[1]), 0);
  }

  lemma ThreeLetters(s: seq<bv8>)
    requires |s| == 4 && IsBase64(s[0]) && IsBase64(s[1]) && IsBase64(s[2]) && s[3] == PAD && Value(s[2]) & 0x3 == 0
    ensures Encode(Decode(s)) == s
  {
    LetterOfValue(s[0]);
    LetterOfValue(s[1]);
    LetterOfValue(s[2]);
    TextIs(s, 3);
    PaddedOctets(Value(s[0]), Value(s[1]), Value(s[2]));
  }

  lemma PaddedOctets(p: bv8, q: bv8, r: bv8)
    requires p < 64 && q < 64 && r < 64
    ensures q & 0xf == 0 ==> (var a := Octets(p, q, 255, 255).0; Sextets(a, 0, 0).0 == p && Sextets(a, 0, 0).1 == q)
    ensures r & 0x3 == 0 ==> (var (a, b, c) := Octets(p, q, r, 255); Sextets(a, b, 0).0 == p && Sextets(a, b, 0).1 == q && Sextets(a, b, 0).2 == r)
  {
  }

  /** Encoding a decoding gives back the text exactly for canonical texts. */
  lemma {:induction false} CanonicalRoundTrip(s: seq<bv8>)
    ensures Encode(Decode(s)) == s <==> Canonical(s)
    decreases |s|
  {
    if Canonical(s) {
      CanonicalEncodes(s);
    } else {
      EncodeIsCanonical(Decode(s));
    }
  }

  lemma {:induction false} CanonicalEncodes(s: seq<bv8>)
    requires Canonical(s)
    ensures Encode(Decode(s)) == s
    decreases |s|
  {
    if |s| == 4 && s[3] == PAD {
      PaddedEncodes(s);
    } else if |s| >= 4 {
      var t, rest := s[..4], s[4..];
      assert s == t + rest && forall k :: 0 <= k < 4 ==> IsBase64(t[k]);
      CanonicalEncodes(rest);
      TextAppend(t, rest);
      DecodeAppend(t, Text(rest));
      assert t[..4] == t && t[4..] == [];
      assert DecodeText(t) == Bytes4(t) + [];
      EncodeAppend(Bytes4(t), Decode(rest));
      GroupEncodes(t);
      var b := Bytes4(t);
      assert b[3..] == [];
      assert Encode(b) == Letters(b[0], b[1], b[2]) + [];
    }
  }

  // ---------------------------------------------------------------------------------------
  // The definition by bit groups
  // ---------------------------------------------------------------------------------------

  /** The bits of a byte, the most significant first. */
  function ByteBits(v: bv8): (r: seq<bool>)
    ensures |r| == 8
  {
    [v & 0x80 != 0, v & 0x40 != 0, v & 0x20 != 0, v & 0x10 != 0,
     v & 0x08 != 0, v & 0x04 != 0, v & 0x02 != 0, v & 0x01 != 0]
  }

  /** The bytes as one stream of bits. */
  function Bits(x: seq<bv8>): seq<bool> {
    FlatMap(ByteBits, x)
  }

  /** The six bits that a letter stands for. */
  function SixBits(c: bv8): (r: seq<bool>)
    ensures |r| == 6
  {
    ByteBits(Value(c))[2..]
  }

  function LetterBits(t: seq<bv8>): seq<bool> {
    FlatMap(SixBits, t)
  }

  function FlatMap<T, U>(f: T -> seq<U>, s: seq<T>): seq<U> {
    if s == [] then [] else f(s[0]) + FlatMap(f, s[1..])
  }

  lemma {:induction false} FlatMapAppend<T, U>(f: T -> seq<U>, s: seq<T>, t: seq<T>)
    ensures FlatMap(f, s + t) == FlatMap(f, s) + FlatMap(f, t)
    decreases |s|
  {
    if s == [] {
      assert s + t == t;
    } else {
      FlatMapAppend(f, s[1..], t);
      assert (s + t)[1..] == s[1..] + t;
    }
  }

  lemma FlatMapOfThree<T, U>(f: T -> seq<U>, a: T, b: T, c: T)
    ensures FlatMap(f, [a, b, c]) == f(a) + f(b) + f(c)
  {
    FlatMapAppend(f, [a, b], [c]);
    FlatMapAppend(f, [a], [b]);
    assert [a] + [b] == [a, b] && [a, b] + [c] == [a, b, c];
  }

  lemma FlatMapOfFour<T, U>(f: T -> seq<U>, a: T, b: T, c: T, d: T)
    ensures FlatMap(f, [a, b, c, d]) == f(a) + f(b) + f(c) + f(d)
  {
    FlatMapAppend(f, [a, b, c], [d]);
    FlatMapOfThree(f, a, b, c);
    assert [a, b, c] + [d] == [a, b, c, d];
  }

  function Repeat<T>(v: T, n: nat): (r: seq<T>)
    ensures |r| == n && forall k :: 0 <= k < n ==> r[k] == v
  {
    seq(n, _ => v)
  }

  /** An encoding is its letters and then padding.  The letters stand for the bits of the input,
      six at a time, with zeros added on the right to make up the last letter; there are as
      many paddings as bytes missing from the last block of three. */
  lemma {:induction false} BitGroups(x: seq<bv8>)
    ensures var missing := (3 - |x| % 3) % 3;
            && Encode(x) == Text(Encode(x)) + Repeat(PAD, missing)
            && LetterBits(Text(Encode(x))) == Bits(x) + Repeat(false, 2 * missing)
    decreases |x|
  {
    hide Letters, Value, ByteBits;
    if |x| == 0 {
    } else if |x| < 3 {
      LastBits(x);
    } else {
      BitGroups(x[3..]);
      OneMoreBlock(x, (3 - |x| % 3) % 3);
    }
  }

  lemma OneMoreBlock(x: seq<bv8>, missing: nat)
    requires |x| >= 3
    requires Encode(x[3..]) == Text(Encode(x[3..])) + Repeat(PAD, missing)
    requires LetterBits(Text(Encode(x[3..]))) == Bits(x[3..]) + Repeat(false, 2 * missing)
    ensures Encode(x) == Text(Encode(x)) + Repeat(PAD, missing)
    ensures LetterBits(Text(Encode(x))) == Bits(x) + Repeat(false, 2 * missing)
  {
    hide *;
    var rest := Encode(x[3..]);
    var l := Letters(x[0], x[1], x[2]);
    EncodeBlock(x);
    LettersDecode(x[0], x[1], x[2]);
    TextAppend(l, rest);
    BitsAppend(l, Text(rest), [x[0], x[1], x[2]], x[3..]);
    BlockBits(x[0], x[1], x[2]);
    assert x == [x[0], x[1], x[2]] + x[3..];
    assert l + rest == (l + Text(rest)) + Repeat(PAD, missing);
  }

  lemma EncodeBlock(x: seq<bv8>)
    requires |x| >= 3
    ensures Encode(x) == Letters(x[0], x[1], x[2]) + Encode(x[3..])
  {
  }

  lemma BitsAppend(t: seq<bv8>, u: seq<bv8>, x: seq<bv8>, y: seq<bv8>)
    ensures LetterBits(t + u) == LetterBits(t) + LetterBits(u) && Bits(x + y) == Bits(x) + Bits(y)
  {
    FlatMapAppend(SixBits, t, u);
    FlatMapAppend(ByteBits, x, y);
  }

  lemma FirstSextet(a: bv8)
    ensures ByteBits((a & 0xfc) >> 2)[2..] == ByteBits(a)[..6]
  {
  }

  lemma SecondSextet(a: bv8, b: bv8)
    ensures ByteBits(((a & 0x03) << 4) + ((b & 0xf0) >> 4))[2..] == ByteBits(a)[6..] + ByteBits(b)[..4]
  {
  }

  lemma ThirdSextet(b: bv8, c: bv8)
    ensures ByteBits(((b & 0x0f) << 2) + ((c & 0xc0) >> 6))[2..] == ByteBits(b)[4..] + ByteBits(c)[..2]
  {
  }

  lemma FourthSextet(c: bv8)
    ensures ByteBits(c & 0x3f)[2..] == ByteBits(c)[2..]
  {
  }

  lemma SextetBits(a: bv8, b: bv8, c: bv8)
    ensures var (p, q, r, s) := Sextets(a, b, c);
            && ByteBits(p)[2..] == ByteBits(a)[..6]
            && ByteBits(q)[2..] == ByteBits(a)[6..] + ByteBits(b)[..4]
            && ByteBits(r)[2..] == ByteBits(b)[4..] + ByteBits(c)[..2]
            && ByteBits(s)[2..] == ByteBits(c)[2..]
  {
    FirstSextet(a);
    SecondSextet(a, b);
    ThirdSextet(b, c);
    FourthSextet(c);
  }

  lemma FourLetters(p: bv8, q: bv8, r: bv8, s: bv8)
    requires p < 64 && q < 64 && r < 64 && s < 64
    ensures LetterBits([Letter(p), Letter(q), Letter(r), Letter(s)]) == ByteBits(p)[2..] + ByteBits(q)[2..] + ByteBits(r)[2..] + ByteBits(s)[2..]
  {
    hide Value, Letter, ByteBits;
    FlatMapOfFour(SixBits, Letter(p), Letter(q), Letter(r), Letter(s));
    ValueOfLetter(p);
    ValueOfLetter(q);
    ValueOfLetter(r);
    ValueOfLetter(s);
  }

  lemma BlockBits(a: bv8, b: bv8, c: bv8)
    ensures LetterBits(Letters(a, b, c)) == Bits([a, b, c])
  {
    hide LetterBits, ByteBits, Letter, Sextets;
    var (p, q, r, s) := Sextets(a, b, c);
    FourLetters(p, q, r, s);
    FlatMapOfThree(ByteBits, a, b, c);
    SextetBits(a, b, c);
    JoinBits(ByteBits(a), ByteBits(b), ByteBits(c));
  }

  lemma JoinBits(a: seq<bool>, b: seq<bool>, c: seq<bool>)
    requires |a| == |b| == |c| == 8
    ensures a[..6] + (a[6..] + b[..4]) + (b[4..] + c[..2]) + c[2..] == a + b + c
  {
  }

  lemma LastText(x: seq<bv8>, b: bv8)
    requires 1 <= |x| < 3 && b == if |x| > 1 then x[1] else 0
    ensures var t := Letters(x[0], b, 0)[..|x| + 1];
            Encode(x) == t + Repeat(PAD, 3 - |x|) && Text(Encode(x)) == t
  {
    hide Letters, Value, Text;
    var t, pad := Letters(x[0], b, 0)[..|x| + 1], Repeat(PAD, 3 - |x|);
    LettersDecode(x[0], b, 0);
    TextAppend(t, pad);
    PaddingIsNoText(pad);
    assert Encode(x) == LastLetters(x) == t + pad;
  }

  lemma PaddingIsNoText(s: seq<bv8>)
    requires s != [] ==> s[0] == PAD
    ensures Text(s) == []
  {
  }

  lemma LastBits(x: seq<bv8>)
    requires 1 <= |x| < 3
    ensures Encode(x) == Text(Encode(x)) + Repeat(PAD, 3 - |x|)
    ensures LetterBits(Text(Encode(x))) == Bits(x) + Repeat(false, 2 * (3 - |x|))
  {
    hide *;
    ThreeInAll(x, 0);
    if |x| == 1 {
      LastBitsWith(x, 0, [0, 0]);
    } else {
      LastBitsWith(x, x[1], [0]);
    }
  }

  lemma ThreeInAll<T>(x: seq<T>, z: T)
    ensures |x| == 1 ==> x + [z, z] == [x[0], z, z]
    ensures |x| == 2 ==> x + [z] == [x[0], x[1], z]
  {
  }

  lemma LastBitsWith(x: seq<bv8>, b: bv8, zeros: seq<bv8>)
    requires 1 <= |x| < 3 && b == if |x| > 1 then x[1] else 0
    requires zeros == [0] || zeros == [0, 0]
    requires [x[0], b, 0] == x + zeros
    ensures Encode(x) == Text(Encode(x)) + Repeat(PAD, 3 - |x|)
    ensures LetterBits(Text(Encode(x))) == Bits(x) + Repeat(false, 2 * (3 - |x|))
  {
    hide *;
    var l := Letters(x[0], b, 0);
    var t, u := l[..|x| + 1], l[|x| + 1..];
    LastText(x, b);
    BlockBits(x[0], b, 0);
    BitsAppend(t, u, x, zeros);
    assert l == t + u;
    BitsLength(t, x);
    ZeroBits(zeros);
    CutZeros(LetterBits(t), LetterBits(u), Bits(x), 8 * |zeros|, 2 * (3 - |x|));
  }

  lemma CutZeros(a: seq<bool>, b: seq<bool>, c: seq<bool>, n: nat, m: nat)
    requires a + b == c + Repeat(false, n) && m <= n && |a| == |c| + m
    ensures a == c + Repeat(false, m)
  {
    assert a == (a + b)[..|a|];
  }

  lemma ZeroBits(zeros: seq<bv8>)
    requires zeros == [0] || zeros == [0, 0]
    ensures Bits(zeros) == Repeat(false, 8 * |zeros|)
  {
    assert [0 as bv8][1..] == [] && FlatMap(ByteBits, [0]) == ByteBits(0);
    if zeros == [0, 0] {
      FlatMapAppend(ByteBits, [0], [0]);
      assert zeros == [0] + [0];
    }
  }

  lemma {:induction false} FlatMapLength<T, U>(f: T -> seq<U>, s: seq<T>, n: nat)
    requires forall v :: |f(v)| == n
    ensures |FlatMap(f, s)| == n * |s|
    decreases |s|
  {
    if s != [] {
      FlatMapLength(f, s[1..], n);
    }
  }

  lemma BitsLength(t: seq<bv8>, x: seq<bv8>)
    ensures |LetterBits(t)| == 6 * |t| && |Bits(x)| == 8 * |x|
  {
    FlatMapLength(SixBits, t, 6);
    FlatMapLength(ByteBits, x, 8);
  }

  // ---------------------------------------------------------------------------------------
  // Decoding any text
  // ---------------------------------------------------------------------------------------

  /** The letters read are the longest run of them at the start. */
  lemma {:induction false} TextIsRun(s: seq<bv8>)
    ensures Text(s) <= s && (forall c :: c in Text(s) ==> IsBase64(c))
    ensures |Text(s)| < |s| ==> !IsBase64(s[|Text(s)|])
    decreases |s|
  {
    if s != [] && IsBase64(s[0]) {
      TextIsRun(s[1..]);
    }
  }

  lemma GroupBits(t: seq<bv8>)
    requires |t| == 4 && forall k :: 0 <= k < 4 ==> IsBase64(t[k])
    ensures Bits(Bytes4(t)) == LetterBits(t)
  {
    hide IsBase64, Bits, LetterBits, Letters;
    var b := Bytes4(t);
    GroupEncodes(t);
    BlockBits(b[0], b[1], b[2]);
    assert b == [b[0], b[1], b[2]];
  }

  /** What stands behind the last letter does not reach the bytes that are kept. */
  lemma TailIgnored(p: bv8, q: bv8, r: bv8, s: bv8)
    requires p < 64 && q < 64
    ensures Octets(p, q, r, s).0 == Octets(p, q, 0, 0).0
    ensures r < 64 ==> Octets(p, q, r, s).1 == Octets(p, q, r, 0).1
  {
  }

  lemma TailBytes(t: seq<bv8>, u: seq<bv8>)
    requires 2 <= |t| < 4 && |u| == 4 - |t| && forall k :: 0 <= k < |t| ==> IsBase64(t[k])
    ensures DecodeText(t) == Bytes4(t + u)[..|t| - 1]
  {
    hide Octets;
    var zeros := seq(4 - |t|, _ => 0 as bv8);
    var a, b := t + zeros, t + u;
    assert forall k :: 0 <= k < |t| ==> a[k] == t[k] == b[k];
    LetterOfValue(t[0]);
    LetterOfValue(t[1]);
    TailIgnored(Value(t[0]), Value(t[1]), Value(a[2]), Value(a[3]));
    TailIgnored(Value(t[0]), Value(t[1]), Value(b[2]), Value(b[3]));
    if |t| == 3 {
      LetterOfValue(t[2]);
    }
  }

  lemma TailBits(t: seq<bv8>)
    requires 2 <= |t| < 4 && forall k :: 0 <= k < |t| ==> IsBase64(t[k])
    ensures |DecodeText(t)| == |t| - 1 && Bits(DecodeText(t)) <= LetterBits(t)
  {
    hide Bits, LetterBits, Bytes4, DecodeText, Value;
    var u := seq(4 - |t|, _ => 65 as bv8);
    TailBytes(t, u);
    GroupBits(t + u);
    var b, x, y := Bytes4(t + u), Bytes4(t + u)[..|t| - 1], Bytes4(t + u)[|t| - 1..];
    assert b == x + y;
    BitsAppend(t, u, x, y);
    BitsLength(t, x);
    SamePrefix(Bits(x), Bits(y), LetterBits(t), LetterBits(u));
  }

  lemma SamePrefix(a: seq<bool>, b: seq<bool>, c: seq<bool>, d: seq<bool>)
    requires a + b == c + d && |a| <= |c|
    ensures a <= c
  {
    assert a == (c + d)[..|a|] == c[..|a|];
  }

  /** Any letters decode to the bits they stand for, in order, cut to whole bytes. */
  lemma {:induction false} DecodedBits(t: seq<bv8>)
    requires forall k :: 0 <= k < |t| ==> IsBase64(t[k])
    ensures |DecodeText(t)| == |t| * 6 / 8 && Bits(DecodeText(t)) <= LetterBits(t)
    decreases |t|
  {
    hide IsBase64, Bytes4, Value, Bits, LetterBits;
    BitsLength(t, []);
    if |t| <= 1 {
    } else if |t| < 4 {
      TailBits(t);
    } else {
      var g, rest := t[..4], t[4..];
      DecodedBits(rest);
      GroupBits(g);
      BitsAppend(g, rest, Bytes4(g), DecodeText(rest));
      BitsLength(g, Bytes4(g));
      BitsLength(rest, DecodeText(rest));
      assert t == g + rest && DecodeText(t) == Bytes4(g) + DecodeText(rest);
    }
  }

  /** Decoding any characters gives the bits of the letters before the first foreign one. */
  lemma DecodeIsBits(s: seq<bv8>)
    ensures |Decode(s)| == |Text(s)| * 6 / 8 && Bits(Decode(s)) <= LetterBits(Text(s))
  {
    hide IsBase64, Bits, LetterBits, DecodeText;
    TextIsRun(s);
    DecodedBits(Text(s));
  }
}
