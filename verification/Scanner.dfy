/** Finding U+FFFD in stored deltas (scripts/scan_replacement_chars.py, `scan`). */
module Scanner {
  import opened Wrappers
  import opened Sequences
  import opened Utf8

  /** A run of replacement characters: from `start`, up to but not including `end`. */
  datatype Hit = Hit(start: nat, end: nat, edge: bool)

  predicate IsReplacement(c: int) {
    c == REPLACEMENT
  }

  ghost predicate MaximalRun(text: seq<int>, start: nat, end: nat) {
    && start < end <= |text|
    && (forall i :: start <= i < end ==> IsReplacement(text[i]))
    && (start > 0 ==> !IsReplacement(text[start - 1]))
    && (end < |text| ==> !IsReplacement(text[end]))
  }

  /** The hits found in the first `upTo` characters, when none of them straddles `upTo`. */
  ghost predicate HitsUpTo(text: seq<int>, hits: seq<Hit>, upTo: nat) {
    && (forall k :: 0 <= k < |hits| ==>
          && MaximalRun(text, hits[k].start, hits[k].end)
          && hits[k].end <= upTo
          && hits[k].edge == (hits[k].start == 0 || hits[k].end == |text|))
    && (forall k, m :: 0 <= k < m < |hits| ==> hits[k].end < hits[m].start)
    && (forall i :: 0 <= i < upTo && i < |text| && IsReplacement(text[i]) ==> Covered(hits, i))
  }

  ghost predicate Covered(hits: seq<Hit>, i: int) {
    exists k :: 0 <= k < |hits| && hits[k].start <= i < hits[k].end
  }

  lemma CoveredSnoc(hits: seq<Hit>, h: Hit, i: int)
    requires Covered(hits, i) || h.start <= i < h.end
    ensures Covered(hits + [h], i)
  {
    if Covered(hits, i) {
      var k :| 0 <= k < |hits| && hits[k].start <= i < hits[k].end;
      assert (hits + [h])[k] == hits[k];
    } else {
      assert (hits + [h])[|hits|] == h;
    }
  }

  /** A newly completed run extends the hits. */
  lemma HitsSnoc(text: seq<int>, hits: seq<Hit>, start: nat, end: nat)
    requires HitsUpTo(text, hits, start) && MaximalRun(text, start, end)
    ensures HitsUpTo(text, hits + [Hit(start, end, start == 0 || end == |text|)], end)
  {
    var hit := Hit(start, end, start == 0 || end == |text|);
    forall i | 0 <= i < end && IsReplacement(text[i]) ensures Covered(hits + [hit], i) {
      CoveredSnoc(hits, hit, i);
    }
    assert forall k :: 0 <= k < |hits| && hits[k].end < |text| ==> !IsReplacement(text[hits[k].end]);
  }

  /**
   * The character loop. The hits are exactly the maximal runs of U+FFFD, in
   * order and apart, each marked as an edge when it touches an end of the text.
   */
  method ScanText(text: seq<int>) returns (hits: seq<Hit>)
    ensures HitsUpTo(text, hits, |text|)
  {
    hits := [];
    var index := 0;
    while index < |text|
      invariant index <= |text|
      invariant HitsUpTo(text, hits, index)
      invariant 0 < index < |text| && IsReplacement(text[index]) ==> !IsReplacement(text[index - 1])
    {
      if text[index] != REPLACEMENT {
        index := index + 1;
        continue;
      }
      var start := index;
      while index < |text| && text[index] == REPLACEMENT
        invariant start <= index <= |text|
        invariant forall i :: start <= i < index ==> IsReplacement(text[i])
      {
        index := index + 1;
      }
      HitsSnoc(text, hits, start, index);
      hits := hits + [Hit(start, index, start == 0 || index == |text|)];
    }
  }

  /** There is no maximal run the hits miss, and no hit where there is no U+FFFD. */
  lemma HitsAreTheRuns(text: seq<int>, hits: seq<Hit>)
    requires HitsUpTo(text, hits, |text|)
    ensures forall start: nat, end: nat ::
              MaximalRun(text, start, end) <==> exists k :: 0 <= k < |hits| && hits[k].start == start && hits[k].end == end
    ensures hits == [] <==> REPLACEMENT !in text
  {
    forall start: nat, end: nat | MaximalRun(text, start, end)
      ensures exists k :: 0 <= k < |hits| && hits[k].start == start && hits[k].end == end {
      MaximalRunIsHit(text, hits, start, end);
    }
    if hits == [] {
      assert forall i :: 0 <= i < |text| ==> !Covered(hits, i);
    } else {
      assert IsReplacement(text[hits[0].start]);
    }
  }

  lemma MaximalRunIsHit(text: seq<int>, hits: seq<Hit>, start: nat, end: nat)
    requires HitsUpTo(text, hits, |text|) && MaximalRun(text, start, end)
    ensures exists k :: 0 <= k < |hits| && hits[k].start == start && hits[k].end == end
  {
    assert Covered(hits, start);
    var k :| 0 <= k < |hits| && hits[k].start <= start < hits[k].end;
    var h := hits[k];
    assert start > 0 ==> !IsReplacement(text[start - 1]);
    assert h.end < |text| ==> !IsReplacement(text[h.end]);
    assert end < |text| ==> !IsReplacement(text[end]);
  }

  // ---------------------------------------------------------------- the byte filter

  /** The three bytes that encode U+FFFD. */
  predicate MarkAt(chunk: Bytes, i: nat) {
    i + 3 <= |chunk| && chunk[i] == 0xEF && chunk[i + 1] == 0xBF && chunk[i + 2] == 0xBD
  }

  predicate HasMark(chunk: Bytes) {
    exists i: nat :: i < |chunk| && MarkAt(chunk, i)
  }

  /** Only those three bytes decode to U+FFFD. */
  lemma OnlyMarkIsReplacement(s: Bytes)
    requires CharLen(s) > 0
    ensures CodePoint(s) == REPLACEMENT <==> MarkAt(s, 0)
  {
  }

  lemma {:induction false} DecodedReplacementIsMarked(s: Bytes)
    requires Valid(s) && REPLACEMENT in Decode(s)
    ensures HasMark(s)
    decreases |s|
  {
    OnlyMarkIsReplacement(s);
    var n := CharLen(s);
    if !MarkAt(s, 0) {
      DecodedReplacementIsMarked(s[n..]);
      var i: nat :| i < |s[n..]| && MarkAt(s[n..], i);
      assert MarkAt(s, n + i);
    }
  }

  /** Bytes at the start of `s` that a replacing decoder swallows for one U+FFFD when no character starts there. */
  function SubpartLen(s: Bytes): (n: nat)
    requires s != []
    ensures 1 <= n <= |s|
  {
    var second := |s| >= 2 && IsTail(s[1])
      && (s[0] == 0xE0 ==> s[1] >= 0xA0) && (s[0] == 0xED ==> s[1] <= 0x9F)
      && (s[0] == 0xF0 ==> s[1] >= 0x90) && (s[0] == 0xF4 ==> s[1] <= 0x8F);
    if 0xE0 <= s[0] <= 0xEF && second then 2
    else if 0xF0 <= s[0] <= 0xF4 && second then (if |s| >= 3 && IsTail(s[2]) then 3 else 2)
    else 1
  }

  /** Decoding that puts U+FFFD in the place of whatever is not UTF-8. */
  function DecodeReplacing(s: Bytes): seq<int>
    decreases |s|
  {
    if s == [] then []
    else if CharLen(s) > 0 then [CodePoint(s)] + DecodeReplacing(s[CharLen(s)..])
    else [REPLACEMENT] + DecodeReplacing(s[SubpartLen(s)..])
  }

  /** Some well-formed character begins with all of `p`. */
  ghost predicate BeginsCharacter(p: Bytes) {
    exists more: Bytes :: CharLen(p + more) >= |p|
  }

  lemma SubpartBegins(s: Bytes)
    requires s != [] && CharLen(s) == 0 && SubpartLen(s) > 1
    ensures BeginsCharacter(s[..SubpartLen(s)])
  {
    var p := s[..SubpartLen(s)];
    if s[0] <= 0xEF || SubpartLen(s) == 3 {
      assert CharLen(p + [0x80]) >= |p|;
    } else {
      assert CharLen(p + [0x80, 0x80]) >= |p|;
    }
  }

  lemma NothingLongerBegins(s: Bytes, m: nat)
    requires s != [] && CharLen(s) == 0 && SubpartLen(s) < m <= |s|
    ensures !BeginsCharacter(s[..m])
  {
    forall more: Bytes ensures CharLen(s[..m] + more) < m {
      var t := s[..m] + more;
      assert t[0] == s[0] && t[1] == s[1] && (m > 2 ==> t[2] == s[2]) && (m > 3 ==> t[3] == s[3]);
    }
  }

  /**
   * Where no character starts, one U+FFFD stands for the longest stretch that
   * some character begins with, or for a single byte when none does so with two;
   * decoding goes on behind it.
   */
  lemma ReplacesMaximalSubparts(s: Bytes)
    requires s != [] && CharLen(s) == 0
    ensures
      exists n :: 1 <= n <= |s|
        && DecodeReplacing(s) == [0xFFFD] + DecodeReplacing(s[n..])
        && (n == 1 || BeginsCharacter(s[..n]))
        && forall m :: n < m <= |s| ==> !BeginsCharacter(s[..m])
  {
    var n := SubpartLen(s);
    if n > 1 {
      SubpartBegins(s);
    }
    forall m | n < m <= |s| ensures !BeginsCharacter(s[..m]) {
      NothingLongerBegins(s, m);
    }
    assert DecodeReplacing(s) == [0xFFFD] + DecodeReplacing(s[n..]);
  }

  lemma {:induction false} ReplacingIsDecoding(s: Bytes)
    requires Valid(s)
    ensures DecodeReplacing(s) == Decode(s)
    decreases |s|
  {
    if s != [] {
      ReplacingIsDecoding(s[CharLen(s)..]);
    }
  }

  lemma {:induction false} MarkIsDecoded(s: Bytes, i: nat)
    requires MarkAt(s, i)
    ensures REPLACEMENT in DecodeReplacing(s)
    decreases |s|
  {
    var n := CharLen(s);
    if n > 0 && i > 0 {
      assert i >= n;
      assert MarkAt(s[n..], i - n);
      MarkIsDecoded(s[n..], i - n);
    } else if n > 0 {
      OnlyMarkIsReplacement(s);
    }
  }

  lemma {:induction false} DamageIsDecoded(s: Bytes)
    requires !Valid(s)
    ensures REPLACEMENT in DecodeReplacing(s)
    decreases |s|
  {
    if CharLen(s) > 0 {
      DamageIsDecoded(s[CharLen(s)..]);
    }
  }

  /**
   * What the byte filter is worth, for any chunk at all: decoded text shows
   * U+FFFD exactly when the three bytes are there or the chunk is not UTF-8. So
   * on valid chunks the filter is exact - the three bytes never come from two
   * characters - and on others it can only miss characters nobody sent.
   */
  lemma FilterIsExact(chunk: Bytes)
    ensures REPLACEMENT in DecodeReplacing(chunk) <==> HasMark(chunk) || !Valid(chunk)
    ensures Valid(chunk) ==> DecodeReplacing(chunk) == Decode(chunk) && (HasMark(chunk) <==> REPLACEMENT in Decode(chunk))
  {
    if HasMark(chunk) {
      var i: nat :| i < |chunk| && MarkAt(chunk, i);
      MarkIsDecoded(chunk, i);
    }
    if Valid(chunk) {
      ReplacingIsDecoding(chunk);
      if REPLACEMENT in Decode(chunk) {
        DecodedReplacementIsMarked(chunk);
      }
    } else {
      DamageIsDecoded(chunk);
    }
  }

  method FindMark(chunk: Bytes) returns (found: bool)
    ensures found <==> HasMark(chunk)
  {
    found := false;
    for i := 0 to |chunk|
      invariant found <==> exists k: nat :: k < i && MarkAt(chunk, k)
    {
      if MarkAt(chunk, i) {
        found := true;
      }
    }
  }

  method DecodeChunk(chunk: Bytes) returns (text: seq<int>)
    ensures text == DecodeReplacing(chunk)
  {
    text := [];
    var rest := chunk;
    while rest != []
      invariant text + DecodeReplacing(rest) == DecodeReplacing(chunk)
      decreases |rest|
    {
      var n := CharLen(rest);
      var c := if n > 0 then CodePoint(rest) else REPLACEMENT;
      n := if n > 0 then n else SubpartLen(rest);
      ConcatAssociates(text, [c], DecodeReplacing(rest[n..]));
      text := text + [c];
      rest := rest[n..];
    }
  }

  lemma NoHits(text: seq<int>)
    requires REPLACEMENT !in text
    ensures HitsUpTo(text, [], |text|)
  {
  }

  /**
   * One delta. Nothing is reported without the three bytes; with them the hits
   * are the maximal runs of the decoded text, and there is at least one.
   */
  method ScanChunk(chunk: Bytes) returns (hits: seq<Hit>)
    ensures hits == [] <==> !HasMark(chunk)
    ensures HasMark(chunk) ==> HitsUpTo(DecodeReplacing(chunk), hits, |DecodeReplacing(chunk)|)
    ensures Valid(chunk) ==> HitsUpTo(Decode(chunk), hits, |Decode(chunk)|)
  {
    FilterIsExact(chunk);
    var found := FindMark(chunk);
    if !found {
      if Valid(chunk) {
        NoHits(Decode(chunk));
      }
      return [];
    }
    var text := DecodeChunk(chunk);
    hits := ScanText(text);
    HitsAreTheRuns(text, hits);
  }

  // ---------------------------------------------------------------- bodies

  /**
   * Why a body is decoded as a whole and not segment by segment: cutting a
   * body that holds no U+FFFD and decoding the parts shows none exactly when
   * the cut falls between two characters.
   */
  lemma DecodingPartsInventsReplacements(body: Bytes, cut: nat)
    requires Valid(body) && REPLACEMENT !in Decode(body) && cut <= |body|
    ensures REPLACEMENT !in DecodeReplacing(body[..cut]) + DecodeReplacing(body[cut..]) <==> IsBoundary(body, cut)
  {
    FilterIsExact(body[..cut]);
    FilterIsExact(body[cut..]);
    BoundaryMeansValidHalves(body, cut);
    if IsBoundary(body, cut) {
      BoundarySplits(body, cut);
    }
  }

  /** The stretch a delta selects; like a Python slice it stops at the end of the body. */
  function Stretch(body: Bytes, offset: nat, length: nat): Bytes {
    var start := Min(offset, |body|);
    body[start..Min(start + length, |body|)]
  }

  /** It has the bytes of the body from the offset on, as many as asked for or as there are. */
  lemma StretchExactly(body: Bytes, offset: nat, length: nat)
    ensures |Stretch(body, offset, length)| == if offset >= |body| then 0 else Min(length, |body| - offset)
    ensures forall i :: 0 <= i < |Stretch(body, offset, length)| ==> Stretch(body, offset, length)[i] == body[offset + i]
  {
  }

  /** A non-empty stretch of a valid body is text exactly when it starts and ends between characters. */
  lemma StretchIsTextExactlyWhen(body: Bytes, offset: nat, length: nat)
    requires Valid(body) && offset < |body| && length > 0
    ensures Valid(Stretch(body, offset, length)) <==>
            IsBoundary(body, offset) && IsBoundary(body, Min(offset + length, |body|))
  {
    var end := Min(offset + length, |body|);
    assert Stretch(body, offset, length) == body[offset..end];
    StretchIsText(body, offset, end);
  }

  /** Content bodies, read one at a time; the last one read is kept. */
  class Contents {
    /** The stored segments of each body, in byte order. */
    const segments: int -> seq<Bytes>
    var cachedId: Option<int>
    var cachedBody: Bytes
    var read: nat
    var invalid: nat
    /** The bodies fetched from the store so far. */
    ghost var fetched: seq<int>

    ghost predicate Consistent()
      reads this
    {
      && (cachedId.Some? ==> cachedBody == Flatten(segments(cachedId.value)))
      && read == |fetched|
      && invalid == |Keep(Damaged(segments), fetched)|
    }

    constructor (segments: int -> seq<Bytes>)
      ensures Consistent() && this.segments == segments && fetched == [] && cachedId == None
    {
      this.segments := segments;
      cachedId, cachedBody, read, invalid, fetched := None, [], 0, 0, [];
    }

    /** The cache is invisible: the body is the joined segments, and only the counters tell whether it was fetched. */
    method BodyOf(id: int) returns (body: Bytes)
      requires Consistent()
      modifies this
      ensures Consistent()
      ensures body == Flatten(segments(id)) && cachedId == Some(id)
      ensures fetched == if old(cachedId) == Some(id) then old(fetched) else old(fetched) + [id]
      ensures read == old(read) + if old(cachedId) == Some(id) then 0 else 1
      ensures invalid == old(invalid) + if old(cachedId) == Some(id) || Valid(Flatten(segments(id))) then 0 else 1
    {
      if cachedId == Some(id) {
        return cachedBody;
      }
      body := [];
      var parts := segments(id);
      for i := 0 to |parts|
        invariant Consistent() && fetched == old(fetched)
        invariant body == Flatten(parts[..i])
      {
        assert parts[..i + 1][..i] == parts[..i];
        body := body + parts[i];
      }
      assert parts[..|parts|] == parts;
      read := read + 1;
      KeepConcat(Damaged(segments), fetched, [id]);
      if !Valid(body) {
        invalid := invalid + 1;
      }
      fetched := fetched + [id];
      cachedId, cachedBody := Some(id), body;
    }

    /** One delta: the hits are those of its stretch of the whole body. */
    method ScanDelta(id: int, offset: nat, length: nat) returns (hits: seq<Hit>)
      requires Consistent()
      modifies this
      ensures Consistent()
      ensures cachedId == Some(id)
      ensures read == old(read) + if old(cachedId) == Some(id) then 0 else 1
      ensures invalid == old(invalid) + if old(cachedId) == Some(id) || Valid(Flatten(segments(id))) then 0 else 1
      ensures
        var chunk := Stretch(Flatten(segments(id)), offset, length);
        && (hits == [] <==> !HasMark(chunk))
        && (HasMark(chunk) ==> HitsUpTo(DecodeReplacing(chunk), hits, |DecodeReplacing(chunk)|))
    {
      var body := BodyOf(id);
      hits := ScanChunk(Stretch(body, offset, length));
    }
  }

  function Damaged(segments: int -> seq<Bytes>): int -> bool {
    id => !Valid(Flatten(segments(id)))
  }
}
