/** UTF-8 as sections 3 and 4 of RFC 3629 define it, and what a character boundary is. */
module Utf8 {
  import opened Sequences

  type Byte = b: int | 0 <= b < 256
  type Bytes = seq<Byte>

  const REPLACEMENT: int := 0xFFFD

  predicate IsTail(b: Byte) {
    0x80 <= b <= 0xBF
  }

  /** Length of the well-formed character that starts `s`, or 0 when none does. */
  function CharLen(s: Bytes): (n: nat)
    ensures n <= |s| && n <= 4
    ensures n > 0 ==> !IsTail(s[0]) && forall i :: 1 <= i < n ==> IsTail(s[i])
    ensures s == [] ==> n == 0
  {
    if s == [] then 0
    else if s[0] <= 0x7F then 1
    else if 0xC2 <= s[0] <= 0xDF then
      if |s| >= 2 && IsTail(s[1]) then 2 else 0
    else if 0xE0 <= s[0] <= 0xEF then
      if |s| >= 3 && IsTail(s[1]) && IsTail(s[2])
         && (s[0] == 0xE0 ==> s[1] >= 0xA0) && (s[0] == 0xED ==> s[1] <= 0x9F) then 3 else 0
    else if 0xF0 <= s[0] <= 0xF4 then
      if |s| >= 4 && IsTail(s[1]) && IsTail(s[2]) && IsTail(s[3])
         && (s[0] == 0xF0 ==> s[1] >= 0x90) && (s[0] == 0xF4 ==> s[1] <= 0x8F) then 4 else 0
    else 0
  }

  function Bits(b: Byte, marker: int): int {
    b as int - marker
  }

  /** The code point of the character that starts `s`. */
  function CodePoint(s: Bytes): int
    requires CharLen(s) > 0
  {
    match CharLen(s)
    case 1 => Bits(s[0], 0)
    case 2 => Bits(s[0], 0xC0) * 0x40 + Bits(s[1], 0x80)
    case 3 => Bits(s[0], 0xE0) * 0x1000 + Bits(s[1], 0x80) * 0x40 + Bits(s[2], 0x80)
    case _ => Bits(s[0], 0xF0) * 0x40000 + Bits(s[1], 0x80) * 0x1000 + Bits(s[2], 0x80) * 0x40 + Bits(s[3], 0x80)
  }

  predicate Valid(s: Bytes) {
    s == [] || (CharLen(s) > 0 && Valid(s[CharLen(s)..]))
  }

  function Decode(s: Bytes): seq<int>
    requires Valid(s)
  {
    if s == [] then [] else [CodePoint(s)] + Decode(s[CharLen(s)..])
  }

  // ---------------------------------------------------------------- the encoder

  /** The numbers of characters: up to 10FFFF, without the surrogates. */
  predicate IsScalar(c: int) {
    0 <= c <= 0x10FFFF && !(0xD800 <= c <= 0xDFFF)
  }

  /** A continuation byte that carries the last six bits of `x`. */
  function Trail(x: nat): Byte {
    0x80 + x % 0x40
  }

  /** The bytes of one character, by the table of section 3. */
  function EncodeChar(c: int): Bytes
    requires IsScalar(c)
  {
    if c <= 0x7F then [c]
    else if c <= 0x7FF then [0xC0 + c / 0x40, Trail(c)]
    else if c <= 0xFFFF then [0xE0 + c / 0x40 / 0x40, Trail(c / 0x40), Trail(c)]
    else [0xF0 + c / 0x40 / 0x40 / 0x40, Trail(c / 0x40 / 0x40), Trail(c / 0x40), Trail(c)]
  }

  predicate AreScalars(cs: seq<int>) {
    forall i :: 0 <= i < |cs| ==> IsScalar(cs[i])
  }

  function Encode(cs: seq<int>): Bytes
    requires AreScalars(cs)
  {
    if cs == [] then [] else EncodeChar(cs[0]) + Encode(cs[1..])
  }

  lemma SixBits(x: nat)
    ensures x == 0x40 * (x / 0x40) + (Trail(x) - 0x80) && 0x80 <= Trail(x) <= 0xBF
  {
  }

  lemma SixBitsOf(q: nat, r: nat)
    requires r < 0x40
    ensures (0x40 * q + r) / 0x40 == q && Trail(0x40 * q + r) == 0x80 + r
  {
  }

  /** What is encoded is recognised, whole, and read as what it was. */
  lemma EncodedCharIsRead(c: int)
    requires IsScalar(c)
    ensures CharLen(EncodeChar(c)) == |EncodeChar(c)| && CodePoint(EncodeChar(c)) == c
  {
    SixBits(c);
    var q := c / 0x40;
    SixBits(q);
    SixBits(q / 0x40);
    var s := EncodeChar(c);
    if 0x7F < c <= 0x7FF {
      ReadsTwo(s);
    } else if 0x7FF < c <= 0xFFFF {
      ReadsThree(s);
    } else if c > 0xFFFF {
      ReadsFour(s);
    }
  }

  lemma ReadsTwo(s: Bytes)
    requires |s| == 2 && 0xC2 <= s[0] <= 0xDF && IsTail(s[1])
    ensures CharLen(s) == 2 && CodePoint(s) == Bits(s[0], 0xC0) * 0x40 + Bits(s[1], 0x80)
  {
  }

  lemma ReadsThree(s: Bytes)
    requires |s| == 3 && 0xE0 <= s[0] <= 0xEF && IsTail(s[1]) && IsTail(s[2])
    requires (s[0] == 0xE0 ==> s[1] >= 0xA0) && (s[0] == 0xED ==> s[1] <= 0x9F)
    ensures CharLen(s) == 3 && CodePoint(s) == (Bits(s[0], 0xE0) * 0x40 + Bits(s[1], 0x80)) * 0x40 + Bits(s[2], 0x80)
  {
  }

  lemma ReadsFour(s: Bytes)
    requires |s| == 4 && 0xF0 <= s[0] <= 0xF4 && IsTail(s[1]) && IsTail(s[2]) && IsTail(s[3])
    requires (s[0] == 0xF0 ==> s[1] >= 0x90) && (s[0] == 0xF4 ==> s[1] <= 0x8F)
    ensures CharLen(s) == 4
    ensures CodePoint(s) == ((Bits(s[0], 0xF0) * 0x40 + Bits(s[1], 0x80)) * 0x40 + Bits(s[2], 0x80)) * 0x40 + Bits(s[3], 0x80)
  {
  }

  /** And every character that is recognised is the encoding of what it is read as. */
  lemma ReadCharIsEncoded(s: Bytes)
    requires CharLen(s) > 0
    ensures IsScalar(CodePoint(s)) && EncodeChar(CodePoint(s)) == s[..CharLen(s)]
  {
    var c := CodePoint(s);
    if CharLen(s) == 2 {
      SixBitsOf(Bits(s[0], 0xC0), Bits(s[1], 0x80));
    } else if CharLen(s) == 3 {
      var q := Bits(s[0], 0xE0) * 0x40 + Bits(s[1], 0x80);
      assert c == 0x40 * q + Bits(s[2], 0x80);
      SixBitsOf(q, Bits(s[2], 0x80));
      SixBitsOf(Bits(s[0], 0xE0), Bits(s[1], 0x80));
    } else if CharLen(s) == 4 {
      var p := Bits(s[0], 0xF0) * 0x40 + Bits(s[1], 0x80);
      var q := p * 0x40 + Bits(s[2], 0x80);
      assert c == 0x40 * q + Bits(s[3], 0x80);
      SixBitsOf(q, Bits(s[3], 0x80));
      SixBitsOf(p, Bits(s[2], 0x80));
      SixBitsOf(Bits(s[0], 0xF0), Bits(s[1], 0x80));
    }
  }

  lemma {:induction false} EncodedTextIsRead(cs: seq<int>)
    requires AreScalars(cs)
    ensures Valid(Encode(cs)) && Decode(Encode(cs)) == cs
  {
    if cs != [] {
      var head, rest := EncodeChar(cs[0]), Encode(cs[1..]);
      EncodedTextIsRead(cs[1..]);
      EncodedCharIsRead(cs[0]);
      CharLenIsLocal(head, head + rest);
      assert (head + rest)[|head|..] == rest;
      ValidCons(head + rest, |head|);
    }
  }

  lemma EncodeCons(s: Bytes, n: nat, c: int, cs: seq<int>)
    requires n <= |s| && IsScalar(c) && EncodeChar(c) == s[..n]
    requires AreScalars(cs) && Encode(cs) == s[n..]
    ensures AreScalars([c] + cs) && Encode([c] + cs) == s
  {
    assert ([c] + cs)[1..] == cs;
    assert s == s[..n] + s[n..];
  }

  lemma {:induction false} ReadTextIsEncoded(s: Bytes)
    requires Valid(s)
    ensures AreScalars(Decode(s)) && Encode(Decode(s)) == s
    decreases |s|
  {
    if s != [] {
      var n := CharLen(s);
      ReadTextIsEncoded(s[n..]);
      ReadCharIsEncoded(s);
      EncodeCons(s, n, CodePoint(s), Decode(s[n..]));
    }
  }

  /** The valid byte strings are the encodings of texts, and decoding undoes encoding both ways. */
  lemma ValidMeansEncoded(s: Bytes)
    ensures Valid(s) <==> exists cs :: AreScalars(cs) && Encode(cs) == s
  {
    if Valid(s) {
      ReadTextIsEncoded(s);
    }
    if cs :| AreScalars(cs) && Encode(cs) == s {
      EncodedTextIsRead(cs);
    }
  }

  /** Rust's `is_char_boundary`: the ends, and every byte that is not a continuation byte. */
  predicate IsBoundary(s: Bytes, i: nat) {
    i == 0 || i == |s| || (i < |s| && !IsTail(s[i]))
  }

  /** The first character depends on its own bytes only. */
  lemma CharLenIsLocal(s: Bytes, t: Bytes)
    requires CharLen(s) > 0 && CharLen(s) <= |t|
    requires forall i :: 0 <= i < CharLen(s) ==> t[i] == s[i]
    ensures CharLen(t) == CharLen(s) && CodePoint(t) == CodePoint(s)
  {
  }

  lemma ValidCons(s: Bytes, n: nat)
    requires n == CharLen(s) > 0 && Valid(s[n..])
    ensures Valid(s) && Decode(s) == [CodePoint(s)] + Decode(s[n..])
  {
  }

  /** A boundary past the start leaves the first character whole. */
  lemma BoundarySkipsHead(s: Bytes, i: nat)
    requires Valid(s) && 0 < i < |s| && IsBoundary(s, i)
    ensures CharLen(s) <= i && IsBoundary(s[CharLen(s)..], i - CharLen(s))
  {
  }

  /** Cutting after `n` bytes are gone is cutting before. */
  lemma SliceOfRest(s: Bytes, n: nat, i: nat)
    requires n <= i <= |s|
    ensures s[n..][i - n..] == s[i..] && s[n..][..i - n] == s[..i][n..]
    ensures i < |s| ==> s[n..][i - n] == s[i]
  {
  }

  /** Text up to `i` starts with the first character of the whole. */
  lemma PrefixCons(s: Bytes, n: nat, i: nat)
    requires n == CharLen(s) > 0 && n <= i <= |s| && Valid(s[..i][n..])
    ensures Valid(s[..i]) && Decode(s[..i]) == [CodePoint(s)] + Decode(s[..i][n..])
  {
    CharLenIsLocal(s, s[..i]);
    ValidCons(s[..i], n);
  }

  ghost predicate SplitsAt(s: Bytes, i: nat)
    requires i <= |s|
  {
    Valid(s) && Valid(s[..i]) && Valid(s[i..]) && Decode(s) == Decode(s[..i]) + Decode(s[i..])
  }

  /** If the rest splits, so does the whole. */
  lemma SplitAfterHead(s: Bytes, n: nat, i: nat)
    requires n == CharLen(s) > 0 && n <= i <= |s|
    requires SplitsAt(s[n..], i - n)
    ensures SplitsAt(s, i)
  {
    SliceOfRest(s, n, i);
    PrefixCons(s, n, i);
    ValidCons(s, n);
    ConcatAssociates([CodePoint(s)], Decode(s[..i][n..]), Decode(s[i..]));
  }

  /** Cutting valid text at a boundary leaves two valid texts that decode to the two halves. */
  lemma BoundarySplits(s: Bytes, i: nat)
    requires Valid(s) && i <= |s| && IsBoundary(s, i)
    ensures Valid(s[..i]) && Valid(s[i..])
    ensures Decode(s) == Decode(s[..i]) + Decode(s[i..])
  {
    SplitsAtBoundary(s, i);
  }

  lemma {:induction false} SplitsAtBoundary(s: Bytes, i: nat)
    requires Valid(s) && i <= |s| && IsBoundary(s, i)
    ensures SplitsAt(s, i)
    decreases |s|
  {
    if i == 0 || i == |s| {
      SplitsAtTheEnds(s, i);
    } else {
      BoundarySkipsHead(s, i);
      SplitsAtBoundary(s[CharLen(s)..], i - CharLen(s));
      SplitAfterHead(s, CharLen(s), i);
    }
  }

  lemma SplitsAtTheEnds(s: Bytes, i: nat)
    requires Valid(s) && (i == 0 || i == |s|)
    ensures SplitsAt(s, i)
  {
    if i == 0 {
      assert s[..0] == [] && s[0..] == s;
    } else {
      assert s[..i] == s && s[i..] == [];
    }
  }

  /** The byte test is exactly the property that matters: both halves are text. */
  lemma BoundaryMeansValidHalves(s: Bytes, i: nat)
    requires Valid(s) && i <= |s|
    ensures IsBoundary(s, i) <==> Valid(s[..i]) && Valid(s[i..])
  {
    if IsBoundary(s, i) {
      BoundarySplits(s, i);
    } else {
      assert s[i..][0] == s[i];
    }
  }

  /** A valid prefix of valid text ends at a boundary. */
  lemma {:induction false} ValidPrefixEndsAtBoundary(s: Bytes, i: nat)
    requires Valid(s) && i <= |s| && Valid(s[..i])
    ensures IsBoundary(s, i)
    decreases |s|
  {
    if 0 < i < |s| {
      var front := s[..i];
      var n := CharLen(front);
      CharLenIsLocal(front, s);
      assert s[n..][..i - n] == front[n..];
      ValidPrefixEndsAtBoundary(s[n..], i - n);
    }
  }

  /** A stretch of valid text between two boundaries is valid. */
  lemma BetweenBoundaries(s: Bytes, i: nat, j: nat)
    requires Valid(s) && i <= j <= |s| && IsBoundary(s, i) && IsBoundary(s, j)
    ensures Valid(s[i..j])
  {
    BoundarySplits(s, j);
    var front := s[..j];
    assert i < j ==> front[i] == s[i];
    BoundarySplits(front, i);
    assert front[i..] == s[i..j];
  }

  lemma StartsCharacter(s: Bytes)
    requires Valid(s) && s != []
    ensures !IsTail(s[0])
  {
    assert CharLen(s) > 0;
  }

  lemma BoundaryOfRest(s: Bytes, i: nat, j: nat)
    requires i < j <= |s| && IsBoundary(s[i..], j - i)
    ensures IsBoundary(s, j)
  {
  }

  lemma StretchEndsAtBoundary(s: Bytes, i: nat, j: nat)
    requires i < j <= |s| && Valid(s[i..]) && Valid(s[i..j])
    ensures IsBoundary(s, j)
  {
    assert s[i..][..j - i] == s[i..j];
    ValidPrefixEndsAtBoundary(s[i..], j - i);
    BoundaryOfRest(s, i, j);
  }

  lemma ValidStretchMeetsBoundaries(s: Bytes, i: nat, j: nat)
    requires Valid(s) && i < j <= |s| && Valid(s[i..j])
    ensures IsBoundary(s, i) && IsBoundary(s, j)
  {
    StartsCharacter(s[i..j]);
    assert s[i..j][0] == s[i];
    BoundarySplits(s, i);
    StretchEndsAtBoundary(s, i, j);
  }

  /** A non-empty stretch of valid text is valid exactly when it starts and ends at boundaries. */
  lemma StretchIsText(s: Bytes, i: nat, j: nat)
    requires Valid(s) && i < j <= |s|
    ensures Valid(s[i..j]) <==> IsBoundary(s, i) && IsBoundary(s, j)
  {
    if Valid(s[i..j]) {
      ValidStretchMeetsBoundaries(s, i, j);
    } else if IsBoundary(s, i) && IsBoundary(s, j) {
      BetweenBoundaries(s, i, j);
    }
  }

  lemma {:induction false} ValidConcat(a: Bytes, b: Bytes)
    requires Valid(a) && Valid(b)
    ensures Valid(a + b) && Decode(a + b) == Decode(a) + Decode(b)
    decreases |a|
  {
    if a == [] {
      assert a + b == b;
    } else {
      var n := CharLen(a);
      assert (a + b)[n..] == a[n..] + b;
      CharLenIsLocal(a, a + b);
      ValidConcat(a[n..], b);
      ValidCons(a + b, n);
      ValidCons(a, n);
      ConcatAssociates([CodePoint(a)], Decode(a[n..]), Decode(b));
    }
  }

  /** Valid text never has four continuation bytes in a row. */
  lemma {:induction false} BoundaryIsNear(s: Bytes, i: nat) returns (j: nat)
    requires Valid(s) && i <= |s|
    ensures j <= i < j + 4 && IsBoundary(s, j)
    decreases |s|
  {
    if i == 0 || i == |s| {
      return i;
    }
    var n := CharLen(s);
    if i < n {
      return 0;
    }
    var k := BoundaryIsNear(s[n..], i - n);
    j := k + n;
    if k < |s[n..]| {
      assert s[n..][k] == s[j];
      if k == 0 && s[n..] != [] {
        assert CharLen(s[n..]) > 0;
      }
    }
  }
}
