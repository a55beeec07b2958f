/**
 * Paging a transcript by bytes (agent/src/fusion.rs, `query_discussion`) and
 * putting it together again (benchmark/fusion/future_runner.py,
 * `collect_consultation`).
 */
module Paging {
  import opened Wrappers
  import opened Sequences
  import opened Utf8

  const PAGE_BYTES: nat := 32 * 1024

  datatype Page = Page(transcript: Bytes, nextOffset: nat, totalBytes: nat)

  /** The largest boundary at or below `i`. */
  ghost predicate IsFloor(s: Bytes, i: nat, j: nat) {
    && j <= i <= |s|
    && IsBoundary(s, j)
    && forall k :: j < k <= i ==> !IsBoundary(s, k)
  }

  /**
   * One page. A requested offset below zero reads as zero; one past the end or
   * inside a character is refused.
   */
  method ServePage(encoded: Bytes, requested: Option<int>) returns (r: Result<Page>)
    requires Valid(encoded)
    ensures
      var asked := if requested.Some? then requested.value else 0;
      var offset := if asked < 0 then 0 else asked;
      && (r.Failure? <==> offset > |encoded| || !IsBoundary(encoded, offset))
      && (r.Success? ==>
            && offset <= r.value.nextOffset <= |encoded|
            && r.value.transcript == encoded[offset..r.value.nextOffset]
            && r.value.totalBytes == |encoded|
            && IsFloor(encoded, Min(offset + 32768, |encoded|), r.value.nextOffset)
            && Valid(r.value.transcript)
            && (offset < |encoded| ==> r.value.nextOffset > offset))
  {
    var asked := if requested.Some? then requested.value else 0;
    var offset := if asked < 0 then 0 else asked;
    if offset > |encoded| || !IsBoundary(encoded, offset) {
      return Failure("Invalid discussion byte offset");
    }
    var limit := Min(offset + PAGE_BYTES, |encoded|);
    var near := BoundaryIsNear(encoded, limit);
    var end := limit;
    while !IsBoundary(encoded, end)
      invariant near <= end <= limit && offset <= end
      invariant forall k :: end < k <= limit ==> !IsBoundary(encoded, k)
      decreases end
    {
      end := end - 1;
    }
    BetweenBoundaries(encoded, offset, end);
    assert IsBoundary(encoded, |encoded|);
    return Success(Page(encoded[offset..end], end, |encoded|));
  }

  /** A request at a boundary succeeds; the page is text and, unless it ends the transcript, nearly full. */
  method FetchPage(encoded: Bytes, offset: nat) returns (page: Page)
    requires Valid(encoded) && offset <= |encoded| && IsBoundary(encoded, offset)
    ensures offset <= page.nextOffset <= page.totalBytes == |encoded|
    ensures page.transcript == encoded[offset..page.nextOffset] && Valid(page.transcript)
    ensures IsBoundary(encoded, page.nextOffset)
    ensures page.nextOffset <= offset + PAGE_BYTES
    ensures page.nextOffset < |encoded| ==> page.nextOffset >= offset + PAGE_BYTES - 3
  {
    var r := ServePage(encoded, Some(offset));
    page := r.value;
    if page.nextOffset < |encoded| {
      PageIsNearlyFull(encoded, offset, page.nextOffset);
    }
  }

  /**
   * The client loop. For every valid text it ends, never meets the "did not
   * advance" error, and the pieces it collected are each valid and join to the
   * text; all but the last are within three bytes of full.
   */
  method CollectPages(encoded: Bytes) returns (pieces: seq<Bytes>, failed: bool)
    requires Valid(encoded)
    ensures !failed
    ensures Flatten(pieces) == encoded
    ensures forall i :: 0 <= i < |pieces| ==> Valid(pieces[i])
    ensures Flatten(Decodes(pieces)) == Decode(encoded)
    ensures forall i :: 0 <= i < |pieces| - 1 ==> 32765 <= |pieces[i]| <= 32768
  {
    pieces, failed := [], false;
    var offset := 0;
    while true
      invariant offset <= |encoded| && IsBoundary(encoded, offset)
      invariant Flatten(pieces) == encoded[..offset] && FullPages(pieces)
      decreases |encoded| - offset
    {
      var page := FetchPage(encoded, offset);
      PiecesSnoc(encoded, pieces, offset, page.nextOffset);
      if page.nextOffset >= page.totalBytes {
        LastPage(encoded, pieces, page.transcript);
        return pieces + [page.transcript], false;
      }
      if page.nextOffset <= offset {
        return pieces + [page.transcript], true;
      }
      pieces := pieces + [page.transcript];
      offset := page.nextOffset;
    }
  }

  /** Pages of text that are at most three bytes short. */
  ghost predicate FullPages(pieces: seq<Bytes>) {
    forall i :: 0 <= i < |pieces| ==> Valid(pieces[i]) && PAGE_BYTES - 3 <= |pieces[i]| <= PAGE_BYTES
  }

  lemma LastPage(encoded: Bytes, pieces: seq<Bytes>, last: Bytes)
    requires FullPages(pieces) && Valid(last) && Valid(encoded)
    requires Flatten(pieces + [last]) == encoded[..|encoded|]
    ensures Flatten(pieces + [last]) == encoded
    ensures forall i :: 0 <= i < |pieces + [last]| ==> Valid((pieces + [last])[i])
    ensures Flatten(Decodes(pieces + [last])) == Decode(encoded)
    ensures forall i :: 0 <= i < |pieces| ==> PAGE_BYTES - 3 <= |(pieces + [last])[i]| <= PAGE_BYTES
  {
    assert encoded[..|encoded|] == encoded;
    JoinedPagesDecode(pieces + [last]);
  }

  lemma PiecesSnoc(encoded: Bytes, pieces: seq<Bytes>, offset: nat, end: nat)
    requires offset <= end <= |encoded| && Flatten(pieces) == encoded[..offset]
    ensures Flatten(pieces + [encoded[offset..end]]) == encoded[..end]
  {
    assert (pieces + [encoded[offset..end]])[..|pieces|] == pieces;
    assert encoded[..end] == encoded[..offset] + encoded[offset..end];
  }

  function Decodes(pieces: seq<Bytes>): seq<seq<int>>
    requires forall i :: 0 <= i < |pieces| ==> Valid(pieces[i])
  {
    seq(|pieces|, i requires 0 <= i < |pieces| => Decode(pieces[i]))
  }

  /** Pages travel as text: joining what each decodes to is decoding what their bytes join to. */
  lemma {:induction false} JoinedPagesDecode(pieces: seq<Bytes>)
    requires forall i :: 0 <= i < |pieces| ==> Valid(pieces[i])
    ensures Valid(Flatten(pieces)) && Flatten(Decodes(pieces)) == Decode(Flatten(pieces))
  {
    if pieces != [] {
      var last := |pieces| - 1;
      JoinedPagesDecode(pieces[..last]);
      ValidConcat(Flatten(pieces[..last]), pieces[last]);
      assert Decodes(pieces)[..last] == Decodes(pieces[..last]);
    }
  }

  /** A page that is not the last falls short of the limit by less than one character. */
  lemma PageIsNearlyFull(s: Bytes, offset: nat, end: nat)
    requires Valid(s) && offset <= end < |s|
    requires IsFloor(s, Min(offset + PAGE_BYTES, |s|), end)
    ensures end >= offset + PAGE_BYTES - 3
  {
    var limit := Min(offset + PAGE_BYTES, |s|);
    var near := BoundaryIsNear(s, limit);
    assert near <= end;
    assert IsBoundary(s, |s|);
    assert limit < |s|;
  }
}
