/**
  The offset-addressed output buffer of the peer's process manager
  (reuleauxcoder-agent/internal/process/manager.go:20-127) and the readers that
  chain polls over it.
 */
module BoundedBuffer {
  import opened Utf8

  const MAX_RETAINED := 512 * 1024

  datatype Snapshot = Snapshot(
    data: seq<byte>, nextOffset: nat, truncated: bool, totalBytes: nat, replaced: bool)

  // ----- What a poll means, in terms of everything ever written -----

  function Dropped(written: seq<byte>): nat {
    if |written| > MAX_RETAINED then |written| - MAX_RETAINED else 0
  }

  /** First position from `i` on that is the end of the stream or a rune start. */
  function Resync(s: seq<byte>, i: nat): (r: nat)
    requires i <= |s|
    ensures i <= r <= |s|
    ensures r < |s| ==> RuneStart(s[r])
    ensures forall k :: i <= k < r ==> !RuneStart(s[k])
    decreases |s| - i
  {
    if i < |s| && !RuneStart(s[i]) then Resync(s, i + 1) else i
  }

  /** Where a poll at `offset` starts reading. */
  function Resume(written: seq<byte>, offset: int): (r: nat)
    ensures Dropped(written) <= r <= |written|
  {
    var low := Dropped(written);
    var at: nat := if offset < low then low else if offset > |written| then |written| else offset;
    if low > 0 || offset < low then Resync(written, at) else at
  }

  /** Where the poll must stop reading. */
  function Reach(written: seq<byte>, offset: int, limit: nat): (e: nat)
    ensures Resume(written, offset) <= e <= |written|
  {
    var r := Resume(written, offset);
    if r + limit <= |written| then r + limit else |written|
  }

  /** End of the longest run of complete runes in `s[i..e]`. */
  function Complete(s: seq<byte>, i: nat, e: nat): (c: nat)
    requires i <= e <= |s|
    ensures i <= c <= e
    decreases e - i
  {
    if FullRune(s, i, e) then Complete(s, i + DecodeSize(s, i, e), e) else i
  }

  /** The new offset of a reader that polled. */
  function PollEnd(written: seq<byte>, offset: int, limit: nat, final: bool): (c: nat)
    ensures Resume(written, offset) <= c <= |written|
  {
    var e := Reach(written, offset, limit);
    if final then e else Complete(written, Resume(written, offset), e)
  }

  /** What `snapshot` returns, in terms of everything ever written. */
  predicate IsPoll(written: seq<byte>, offset: int, limit: nat, final: bool, s: Snapshot) {
    && s.nextOffset == PollEnd(written, offset, limit, final)
    && s.data == written[Resume(written, offset)..s.nextOffset]
    && s.totalBytes == |written|
    && (s.truncated <==>
        || Dropped(written) > 0
        || offset < 0
        || Reach(written, offset, limit) < |written|)
    && (s.replaced <==> !ValidString(s.data))
  }

  // ----- The buffer -----

  class Buffer {
    var data: seq<byte>
    var startOffset: nat
    var nextOffset: nat
    var totalBytes: nat
    var truncated: bool
    ghost var written: seq<byte>

    /** The buffer holds exactly the last `min(total, MAX_RETAINED)` bytes written. */
    ghost predicate Valid()
      reads this
    {
      && startOffset == Dropped(written)
      && data == written[startOffset..]
      && nextOffset == totalBytes == |written|
      && truncated == (startOffset > 0)
    }

    constructor ()
      ensures Valid() && written == []
    {
      data, startOffset, nextOffset, totalBytes, truncated := [], 0, 0, 0, false;
      written := [];
    }

    method Write(p: seq<byte>) returns (n: nat)
      requires Valid()
      modifies this
      ensures Valid() && written == old(written) + p && n == |p|
      ensures |data| == (if |written| > MAX_RETAINED then MAX_RETAINED else |written|)
      ensures data == written[|written| - |data|..]
    {
      assert data + p == (written + p)[startOffset..];
      data := data + p;
      nextOffset := nextOffset + |p|;
      totalBytes := totalBytes + |p|;
      if |data| > MAX_RETAINED {
        var drop := |data| - MAX_RETAINED;
        assert data[drop..] == (written + p)[startOffset + drop..];
        data := data[drop..];
        startOffset := startOffset + drop;
        truncated := true;
      }
      written := written + p;
      n := |p|;
    }

    method Poll(offset: int, limit: nat, final: bool) returns (s: Snapshot)
      requires Valid()
      ensures IsPoll(written, offset, limit, final, s)
    {
      var requested, available, cut := Readable(offset, limit);
      var consumable := ConsumablePrefix(available, final);
      PollReturns(written, offset, limit, final, available, consumable);
      available := available[..consumable];
      var valid := IsValid(available);
      s := Snapshot(available, requested + consumable, cut, totalBytes, !valid);
    }

    /** The bytes from the reader's position on, cut at the poll limit. */
    method Readable(offset: int, limit: nat) returns (requested: nat, available: seq<byte>, cut: bool)
      requires Valid()
      ensures requested == Resume(written, offset)
      ensures available == written[requested..Reach(written, offset, limit)]
      ensures cut <==> Dropped(written) > 0 || offset < 0 || Reach(written, offset, limit) < |written|
    {
      var start;
      start, requested := StartOf(offset);
      cut := truncated || offset < startOffset;
      available := data[start..];
      if |available| > limit {
        available := available[..limit];
        cut := true;
      }
    }

    /** Clamps the offset into the retained range, then skips to a rune start if bytes were lost. */
    method StartOf(offset: int) returns (start: nat, requested: nat)
      requires Valid()
      ensures requested == Resume(written, offset) && start == requested - startOffset
    {
      requested := if offset < startOffset then startOffset else offset;
      if requested > nextOffset {
        requested := nextOffset;
      }
      start := requested - startOffset;
      if truncated || offset < startOffset {
        while start < |data| && !RuneStart(data[start])
          invariant startOffset <= requested <= nextOffset && start == requested - startOffset
          invariant Resync(written, requested) == Resume(written, offset)
        {
          start := start + 1;
          requested := requested + 1;
        }
      }
    }
  }

  /** The consumable part of the readable bytes is what the poll returns. */
  lemma PollReturns(written: seq<byte>, offset: int, limit: nat, final: bool, available: seq<byte>, k: nat)
    requires available == written[Resume(written, offset)..Reach(written, offset, limit)]
    requires k == (if final then |available| else Complete(available, 0, |available|)) && k <= |available|
    ensures Resume(written, offset) + k == PollEnd(written, offset, limit, final)
    ensures available[..k] == written[Resume(written, offset)..PollEnd(written, offset, limit, final)]
  {
    var r, e := Resume(written, offset), Reach(written, offset, limit);
    CompleteInSlice(written, r, e, 0);
    PrefixOfSlice(written, r, e, k);
  }

  lemma PrefixOfSlice(s: seq<byte>, a: nat, e: nat, k: nat)
    requires a + k <= e <= |s|
    ensures s[a..e][..k] == s[a..a + k]
  {
  }

  /** Scanning a copy of `s[a..e]` finds the same cut as scanning `s` in place. */
  lemma {:induction false} CompleteInSlice(s: seq<byte>, a: nat, e: nat, k: nat)
    requires a + k <= e <= |s|
    ensures a + Complete(s[a..e], k, e - a) == Complete(s, a + k, e)
    decreases e - a - k
  {
    var t := s[a..e];
    assert forall j :: 0 <= j < e - a ==> t[j] == s[a + j];
    assert FullRune(t, k, e - a) == FullRune(s, a + k, e);
    if FullRune(s, a + k, e) {
      assert DecodeSize(t, k, e - a) == DecodeSize(s, a + k, e);
      CompleteInSlice(s, a, e, k + DecodeSize(s, a + k, e));
    }
  }

  method ConsumablePrefix(data: seq<byte>, final: bool) returns (k: nat)
    ensures k == if final then |data| else Complete(data, 0, |data|)
  {
    var index := 0;
    while index < |data|
      invariant index <= |data|
      invariant Complete(data, 0, |data|) == Complete(data, index, |data|)
    {
      if !FullRune(data, index, |data|) {
        return if final then |data| else index;
      }
      index := index + DecodeSize(data, index, |data|);
    }
    return |data|;
  }

  /** `utf8.Valid`: every rune decodes without error. */
  method IsValid(data: seq<byte>) returns (ok: bool)
    ensures ok <==> ValidString(data)
  {
    var index := 0;
    while index < |data|
      invariant index <= |data|
      invariant ValidString(data) <==> Valid(data, index, |data|)
    {
      var size := DecodeSize(data, index, |data|);
      if size == 1 && data[index] >= 0x80 {
        return false;
      }
      index := index + size;
    }
    return true;
  }

  // ----- Polls of any bytes -----

  /**
    A poll within the retained bytes resumes at its offset, or at the first rune start from
    there on once bytes were dropped; a poll beyond the end resumes at the end.
   */
  lemma ResumesAtRune(written: seq<byte>, offset: int)
    ensures var r, lost := Resume(written, offset), |written| > MAX_RETAINED;
      && (offset >= |written| ==> r == |written|)
      && (0 <= offset <= |written| && !lost ==> r == offset)
      && (offset < |written| && (lost || offset < 0) ==>
            && offset <= r && |written| - MAX_RETAINED <= r
            && (r < |written| ==> RuneStart(written[r]))
            && forall k :: 0 <= k < r && offset <= k && |written| - MAX_RETAINED <= k ==> !RuneStart(written[k]))
  {
  }

  /** What a poll leaves unread below its limit may still become a character: at most three bytes, none if final. */
  lemma PollReadsToLimit(written: seq<byte>, offset: int, limit: nat, final: bool)
    ensures var r, c := Resume(written, offset), PollEnd(written, offset, limit, final);
      var e := if r + limit <= |written| then r + limit else |written|;
      && r <= c <= e
      && (final ==> c == e)
      && (c < e ==> Unfinished(written, c, e))
      && e - c <= 3
  {
    var r, e := Resume(written, offset), Reach(written, offset, limit);
    if !final {
      CompleteStops(written, r, e);
    }
  }

  lemma {:induction false} CompleteStops(s: seq<byte>, i: nat, e: nat)
    requires i <= e <= |s|
    ensures var c := Complete(s, i, e); c < e ==> Unfinished(s, c, e) && e - c <= 3
    decreases e - i
  {
    if FullRune(s, i, e) {
      CompleteStops(s, i + DecodeSize(s, i, e), e);
    } else if i < e {
      UnfinishedIff(s, i, e);
    }
  }

  // ----- Non-final polls of a valid stream -----

  /** Over valid bytes `s[i..all]`, `Complete` finds the last boundary up to `e`. */
  lemma {:induction false} CompleteIsLastBoundary(s: seq<byte>, i: nat, e: nat)
    requires i <= e <= |s| && Valid(s, i, |s|)
    ensures var c := Complete(s, i, e);
            && Valid(s, i, c)
            && e - c <= 3
            && forall b :: c < b <= e ==> !Valid(s, i, b)
    decreases e - i
  {
    var c := Complete(s, i, e);
    if i < |s| {
      var n := CharLength(s, i, |s|);
      DecodeAgrees(s, i, |s|);
      CharCut(s, i, e, |s|);
      if i + n <= e {
        DecodeAgrees(s, i, e);
        CompleteIsLastBoundary(s, i + n, e);
        CharCut(s, i, c, |s|);
        forall b | c < b <= e
          ensures !Valid(s, i, b)
        {
          CharCut(s, i, b, |s|);
        }
      } else {
        forall b | i < b <= e
          ensures !Valid(s, i, b)
        {
          BoundaryIsRuneStart(s, i, b, |s|);
        }
      }
    }
  }

  /** A poll at a boundary resumes there, or at the first boundary that is still retained. */
  lemma ResumeAtBoundary(written: seq<byte>, stream: seq<byte>, offset: nat)
    requires written <= stream && ValidString(stream)
    requires offset <= |written| && Boundary(stream, offset)
    ensures var r := Resume(written, offset);
            && offset <= r && Boundary(stream, r)
            && r <= (if offset < Dropped(written) then Dropped(written) + 3 else offset)
  {
    var low := Dropped(written);
    if offset < low {
      CompleteIsLastBoundary(stream, 0, low + 3);
      var b := Complete(stream, 0, low + 3);
      assert low <= b && Boundary(stream, b);
      BoundaryIsRuneStart(stream, 0, b, |stream|);
      var r := Resync(written, low);
      BoundaryIsRuneStart(stream, 0, r, |stream|);
    } else if offset < |written| {
      BoundaryIsRuneStart(stream, 0, offset, |stream|);
    }
  }

  /**
    One non-final poll, at a boundary of a stream that is valid as a whole: it
    starts at the reader's offset unless those bytes are gone, returns whole
    characters, leaves at most three readable bytes behind, and so makes progress
    once four bytes are readable.
   */
  lemma PollOfValidStream(written: seq<byte>, stream: seq<byte>, offset: nat, limit: nat)
    requires written <= stream && ValidString(stream)
    requires offset <= |written| && Boundary(stream, offset)
    ensures var r := Resume(written, offset);
            var c := PollEnd(written, offset, limit, false);
            && offset <= r && Boundary(stream, r)
            && (offset >= Dropped(written) ==> r == offset)
            && (offset < Dropped(written) ==> r <= Dropped(written) + 3)
            && ValidString(written[r..c]) && Boundary(stream, c)
            && c <= r + limit && (r + limit <= c + 3 || |written| <= c + 3)
  {
    ResumeAtBoundary(written, stream, offset);
    var r, e := Resume(written, offset), Reach(written, offset, limit);
    ValidSplit(stream, 0, r, |stream|);
    CompleteIsLastBoundary(stream, r, e);
    PrefixComplete(written, stream, r, e);
    var c := PollEnd(written, offset, limit, false);
    ValidSplit(stream, 0, r, c);
    SameBytes(stream, r, c, written[r..c], r);
  }

  lemma {:induction false} PrefixComplete(s: seq<byte>, stream: seq<byte>, i: nat, e: nat)
    requires s <= stream && i <= e <= |s|
    ensures Complete(s, i, e) == Complete(stream, i, e)
    decreases e - i
  {
    if FullRune(s, i, e) {
      PrefixComplete(s, stream, i + DecodeSize(s, i, e), e);
    }
  }

  // ----- Readers that chain polls -----

  /** `chunks` are the polled texts; `skipped` counts bytes lost because they had been dropped. */
  datatype Reader = Reader(written: seq<byte>, offset: nat, chunks: seq<seq<byte>>, skipped: int)

  datatype Step = Produce(bytes: seq<byte>) | Read(limit: nat)

  function Next(r: Reader, step: Step): Reader {
    match step
    case Produce(bytes) => r.(written := r.written + bytes)
    case Read(limit) =>
      var start, end := Resume(r.written, r.offset), PollEnd(r.written, r.offset, limit, false);
      Reader(r.written, end, r.chunks + [r.written[start..end]], r.skipped + (start - r.offset))
  }

  const FRESH := Reader([], 0, [], 0)

  /** The reader after a whole run of writes and non-final polls. */
  function Run(steps: seq<Step>): Reader {
    if steps == [] then FRESH else Next(Run(steps[..|steps| - 1]), steps[|steps| - 1])
  }

  /** No poll of the run comes after its bytes were dropped. */
  predicate KeepsUp(steps: seq<Step>) {
    steps == [] ||
    var before := Run(steps[..|steps| - 1]);
    && KeepsUp(steps[..|steps| - 1])
    && (steps[|steps| - 1].Read? ==> before.offset >= Dropped(before.written))
  }

  function Flatten(chunks: seq<seq<byte>>): seq<byte> {
    if chunks == [] then [] else Flatten(chunks[..|chunks| - 1]) + chunks[|chunks| - 1]
  }

  predicate Consistent(r: Reader, stream: seq<byte>) {
    && r.offset <= |r.written|
    && Boundary(stream, r.offset)
    && (forall i :: 0 <= i < |r.chunks| ==> ValidString(r.chunks[i]))
    && 0 <= r.skipped
    && |Flatten(r.chunks)| + r.skipped == r.offset
    && (r.skipped == 0 ==> Flatten(r.chunks) == r.written[..r.offset])
  }

  /**
    Over every interleaving of writes and non-final polls of a valid stream, the
    reader only ever holds whole characters, every byte before its cursor was
    either delivered or skipped because it had been dropped, and a reader that
    keeps up holds exactly the stream prefix.
   */
  lemma {:induction false} ReaderReconstructs(steps: seq<Step>, stream: seq<byte>)
    requires Run(steps).written <= stream && ValidString(stream)
    ensures Consistent(Run(steps), stream)
    ensures KeepsUp(steps) ==> Run(steps).skipped == 0
    decreases |steps|
  {
    if steps != [] {
      var before := Run(steps[..|steps| - 1]);
      ReaderReconstructs(steps[..|steps| - 1], stream);
      match steps[|steps| - 1]
      case Produce(bytes) =>
        var after := Run(steps);
        assert after.written[..after.offset] == before.written[..after.offset];
      case Read(limit) =>
        PollOfValidStream(before.written, stream, before.offset, limit);
        ExtendReader(before, stream, Resume(before.written, before.offset),
                     PollEnd(before.written, before.offset, limit, false));
    }
  }

  lemma ExtendReader(before: Reader, stream: seq<byte>, start: nat, end: nat)
    requires Consistent(before, stream) && before.offset <= start <= end <= |before.written|
    requires ValidString(before.written[start..end]) && Boundary(stream, end)
    ensures Consistent(
      Reader(before.written, end, before.chunks + [before.written[start..end]],
             before.skipped + (start - before.offset)), stream)
  {
    var chunks := before.chunks + [before.written[start..end]];
    assert chunks[..|chunks| - 1] == before.chunks;
    if start == before.offset {
      assert before.written[..end] == before.written[..start] + before.written[start..end];
    }
  }

  // ----- Final polls may cut a character at the poll limit -----

  /** A final poll of a finished valid stream returns valid text exactly when the limit does not cut a character. */
  lemma FinalPollValidIff(written: seq<byte>, offset: nat, limit: nat)
    requires ValidString(written) && offset <= |written| && Boundary(written, offset)
    ensures var r := Resume(written, offset);
            var c := PollEnd(written, offset, limit, true);
            ValidString(written[r..c]) <==> r + limit >= |written| || RuneStart(written[r + limit])
  {
    ResumeAtBoundary(written, written, offset);
    var r, c := Resume(written, offset), PollEnd(written, offset, limit, true);
    ValidSplit(written, 0, r, |written|);
    SameBytes(written, r, c, written[r..c], r);
    if c < |written| {
      BoundaryIsRuneStart(written, r, c, |written|);
    }
  }

  /** The two-byte character U+00E9 polled one byte at a time by a final poll. */
  lemma FinalPollCanCut()
    ensures var written: seq<byte> := [0xC3, 0xA9];
            && ValidString(written)
            && !ValidString(written[Resume(written, 0)..PollEnd(written, 0, 1, true)])
  {
    var written: seq<byte> := [0xC3, 0xA9];
    FinalPollValidIff(written, 0, 1);
  }
}
