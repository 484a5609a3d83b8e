/**
  The hidden-value filter that redacts process output chunk by chunk
  (reuleauxcoder/domain/process_manager.py:53 and 119-154).
 */
module SensitiveFilter {

  const MARKER := "[hidden input redacted]"

  /** One unit of filtered output: a character passed through, or one redaction. */
  datatype Piece = Literal(c: char) | Hidden

  function Render(pieces: seq<Piece>): string {
    if pieces == [] then ""
    else (if pieces[0].Hidden? then MARKER else [pieces[0].c]) + Render(pieces[1..])
  }

  // ----- Which value matches -----

  function Insert(value: string, sorted: seq<string>): seq<string> {
    if sorted == [] || |value| >= |sorted[0]| then [value] + sorted
    else [sorted[0]] + Insert(value, sorted[1..])
  }

  /** The non-empty values, longest first (a stable sort). */
  function ByLength(values: seq<string>): seq<string> {
    if values == [] then []
    else if values[0] == "" then ByLength(values[1..])
    else Insert(values[0], ByLength(values[1..]))
  }

  /** Length of the first value in `sorted` that `s` starts with, or 0. */
  function FirstMatch(sorted: seq<string>, s: string): nat {
    if sorted == [] then 0
    else if sorted[0] <= s then |sorted[0]|
    else FirstMatch(sorted[1..], s)
  }

  ghost predicate Starts(values: seq<string>, s: string, n: int) {
    0 < n <= |s| && s[..n] in values
  }

  lemma {:induction false} InsertSame(value: string, sorted: seq<string>)
    ensures forall v :: v in Insert(value, sorted) <==> v == value || v in sorted
    ensures Descending(sorted) ==> Descending(Insert(value, sorted))
  {
    if sorted != [] && |value| < |sorted[0]| {
      InsertSame(value, sorted[1..]);
      var tail := Insert(value, sorted[1..]);
      assert sorted == [sorted[0]] + sorted[1..];
      assert forall v :: v in [sorted[0]] + tail <==> v == sorted[0] || v in tail;
      if Descending(sorted) {
        forall j | 0 <= j < |tail|
          ensures |sorted[0]| >= |tail[j]|
        {
          assert tail[j] in tail;
        }
      }
    } else {
      assert forall v :: v in [value] + sorted <==> v == value || v in sorted;
    }
  }

  ghost predicate Descending(sorted: seq<string>) {
    forall i, j :: 0 <= i < j < |sorted| ==> |sorted[i]| >= |sorted[j]|
  }

  lemma {:induction false} ByLengthSorts(values: seq<string>)
    ensures Descending(ByLength(values))
    ensures forall v :: v in ByLength(values) <==> v != "" && v in values
  {
    if values != [] {
      ByLengthSorts(values[1..]);
      InsertSame(values[0], ByLength(values[1..]));
      assert forall v :: v in values <==> v == values[0] || v in values[1..];
    }
  }

  /** Length of the longest value `s` starts with, or 0. */
  function Longest(values: seq<string>, s: string): (m: nat)
    ensures m <= |s|
  {
    if values == [] then 0
    else
      var rest := Longest(values[1..], s);
      if values[0] <= s && |values[0]| > rest then |values[0]| else rest
  }

  lemma {:induction false} LongestSpec(values: seq<string>, s: string)
    ensures Longest(values, s) > 0 ==> Starts(values, s, Longest(values, s))
    ensures forall n :: Starts(values, s, n) ==> n <= Longest(values, s)
  {
    if values != [] {
      LongestSpec(values[1..], s);
      if values[0] <= s {
        assert s[..|values[0]|] == values[0];
      }
      forall n | Starts(values, s, n)
        ensures n <= Longest(values, s)
      {
        assert s[..n] == values[0] || Starts(values[1..], s, n);
      }
    }
  }

  /** The first match in the sorted list is the longest match. */
  lemma {:induction false} FirstMatchLongest(sorted: seq<string>, s: string)
    requires Descending(sorted)
    ensures FirstMatch(sorted, s) == Longest(sorted, s)
  {
    if sorted != [] {
      FirstMatchLongest(sorted[1..], s);
      LongestSpec(sorted[1..], s);
      var rest := Longest(sorted[1..], s);
      if rest > 0 {
        var j :| 0 <= j < |sorted[1..]| && sorted[1..][j] == s[..rest];
        assert |sorted[0]| >= |sorted[j + 1]|;
      }
    }
  }

  /** Sorting does not change the longest match. */
  lemma LongestSorted(values: seq<string>, s: string)
    ensures FirstMatch(ByLength(values), s) == Longest(values, s)
  {
    ByLengthSorts(values);
    FirstMatchLongest(ByLength(values), s);
    LongestSpec(values, s);
    LongestSpec(ByLength(values), s);
    var m, n := Longest(values, s), Longest(ByLength(values), s);
    assert m > 0 ==> Starts(ByLength(values), s, m);
    assert n > 0 ==> Starts(values, s, n);
  }

  /** `s` is the beginning of some non-empty value. */
  predicate HeldBack(values: seq<string>, s: string) {
    exists i :: 0 <= i < |values| && values[i] != "" && s <= values[i]
  }

  // ----- Batch and incremental filtering -----

  /** Redacting a complete text. */
  function Redact(values: seq<string>, s: string): seq<Piece>
    decreases |s|
  {
    if s == "" then []
    else
      var m := Longest(values, s);
      if m > 0 then [Hidden] + Redact(values, s[m..])
      else [Literal(s[0])] + Redact(values, s[1..])
  }

  /** Redacting what has arrived so far; the second part is kept for the next chunk. */
  function Advance(values: seq<string>, s: string): (r: (seq<Piece>, string))
    decreases |s|
  {
    if s == "" then ([], "")
    else
      var m := Longest(values, s);
      if m > 0 then
        var rest := Advance(values, s[m..]);
        ([Hidden] + rest.0, rest.1)
      else if HeldBack(values, s) then ([], s)
      else
        var rest := Advance(values, s[1..]);
        ([Literal(s[0])] + rest.0, rest.1)
  }

  function Step(values: seq<string>, s: string, final: bool): (seq<Piece>, string) {
    if final then (Redact(values, s), "") else Advance(values, s)
  }

  class Filter {
    const values: seq<string>
    var pending: string

    constructor (values: seq<string>)
      ensures this.values == values && pending == ""
    {
      this.values := values;
      pending := "";
    }

    method Apply(chunk: string, final: bool) returns (result: string)
      modifies this`pending
      ensures result == Render(Step(values, old(pending) + chunk, final).0)
      ensures pending == Step(values, old(pending) + chunk, final).1
    {
      var text := pending + chunk;
      pending := "";
      if text == "" || values == [] {
        Untouched(values, text);
        return text;
      }
      result, pending := Sift(values, ByLength(values), text, final);
    }
  }

  /** The loop over the text; `rest` is the part that is held back. */
  method Sift(values: seq<string>, sorted: seq<string>, text: string, final: bool)
    returns (result: string, rest: string)
    requires sorted == ByLength(values)
    ensures result == Render(Step(values, text, final).0) && rest == Step(values, text, final).1
  {
    result, rest := "", "";
    var index := 0;
    assert text[0..] == text;
    while index < |text|
      invariant Sifted(values, text, final, index, result)
    {
      var suffix := text[index..];
      var matched := FirstMatch(sorted, suffix);
      LongestSorted(values, suffix);
      if matched > 0 {
        SiftedHidden(values, text, final, index, result, matched);
        result := result + MARKER;
        index := index + matched;
      } else if !final && HeldBack(values, suffix) {
        HeldEnds(values, suffix);
        return result, suffix;
      } else {
        SiftedLiteral(values, text, final, index, result);
        result := result + [text[index]];
        index := index + 1;
      }
    }
    assert text[index..] == "";
  }

  lemma HeldEnds(values: seq<string>, s: string)
    requires s != "" && Longest(values, s) == 0 && HeldBack(values, s)
    ensures Step(values, s, false) == ([], s) && Render([]) == ""
  {
  }

  /** The output so far, and what is still to come of the text from `index` on. */
  ghost predicate Sifted(values: seq<string>, text: string, final: bool, index: nat, result: string) {
    && index <= |text|
    && result + Render(Step(values, text[index..], final).0) == Render(Step(values, text, final).0)
    && Step(values, text[index..], final).1 == Step(values, text, final).1
  }

  lemma SiftedHidden(values: seq<string>, text: string, final: bool, index: nat, result: string, m: nat)
    requires Sifted(values, text, final, index, result) && index + m <= |text|
    requires 0 < m == Longest(values, text[index..])
    ensures Sifted(values, text, final, index + m, result + MARKER)
  {
    StepHidden(values, text[index..], final, m);
    assert text[index..][m..] == text[index + m..];
    JoinThree(result, MARKER, Render(Step(values, text[index + m..], final).0));
  }

  lemma SiftedLiteral(values: seq<string>, text: string, final: bool, index: nat, result: string)
    requires Sifted(values, text, final, index, result) && index < |text|
    requires Longest(values, text[index..]) == 0 && (final || !HeldBack(values, text[index..]))
    ensures Sifted(values, text, final, index + 1, result + [text[index]])
  {
    StepLiteral(values, text[index..], final);
    assert text[index..][1..] == text[index + 1..];
    JoinThree(result, [text[index]], Render(Step(values, text[index + 1..], final).0));
  }

  lemma JoinThree(a: string, b: string, c: string)
    ensures (a + b) + c == a + (b + c)
  {
  }

  lemma StepHidden(values: seq<string>, s: string, final: bool, m: nat)
    requires 0 < m <= |s| && m == Longest(values, s)
    ensures Render(Step(values, s, final).0) == MARKER + Render(Step(values, s[m..], final).0)
    ensures Step(values, s, final).1 == Step(values, s[m..], final).1
  {
    assert Step(values, s, final).0[1..] == Step(values, s[m..], final).0;
  }

  lemma StepLiteral(values: seq<string>, s: string, final: bool)
    requires s != "" && Longest(values, s) == 0 && (final || !HeldBack(values, s))
    ensures Render(Step(values, s, final).0) == [s[0]] + Render(Step(values, s[1..], final).0)
    ensures Step(values, s, final).1 == Step(values, s[1..], final).1
  {
    assert Step(values, s, final).0[1..] == Step(values, s[1..], final).0;
  }

  lemma {:induction false} Untouched(values: seq<string>, s: string)
    requires s == "" || values == []
    ensures Render(Redact(values, s)) == s && Render(Advance(values, s).0) == s
    ensures Advance(values, s).1 == ""
    decreases |s|
  {
    if s != "" {
      Untouched(values, s[1..]);
      assert Redact(values, s)[1..] == Redact(values, s[1..]);
      assert Advance(values, s).0[1..] == Advance(values, s[1..]).0;
      assert s == [s[0]] + s[1..];
    }
  }

  // ----- Any split of the output -----

  function Concat(chunks: seq<string>): string {
    if chunks == [] then "" else chunks[0] + Concat(chunks[1..])
  }

  /** All output of a filter holding `pending`, fed `chunks` with `final` on the last one only. */
  function Feed(values: seq<string>, pending: string, chunks: seq<string>): seq<Piece>
    requires chunks != []
    decreases |chunks|
  {
    var step := Step(values, pending + chunks[0], |chunks| == 1);
    if |chunks| == 1 then step.0 else step.0 + Feed(values, step.1, chunks[1..])
  }

  /** No non-empty value is a proper prefix of another. */
  ghost predicate PrefixFree(values: seq<string>) {
    forall v, w :: v in values && w in values && v != "" && v <= w ==> v == w
  }

  /** What has been decided stays right whatever arrives later. */
  ghost predicate Decided(values: seq<string>, s: string, future: string) {
    var step := Advance(values, s);
    step.0 + Redact(values, step.1 + future) == Redact(values, s + future)
  }

  lemma {:induction false} AdvanceIsFinal(values: seq<string>, s: string, future: string)
    requires PrefixFree(values)
    ensures Decided(values, s, future)
    decreases |s|
  {
    if s == "" {
      assert s + future == future;
    } else {
      var m := Longest(values, s);
      if m > 0 {
        AdvanceIsFinal(values, s[m..], future);
        SameMatch(values, s, future);
        DecidedHidden(values, s, future, m);
      } else if !HeldBack(values, s) {
        AdvanceIsFinal(values, s[1..], future);
        NoLaterMatch(values, s, future);
        DecidedLiteral(values, s, future);
      }
    }
  }

  lemma Prepend(p: Piece, front: seq<Piece>, back: seq<Piece>)
    ensures ([p] + front) + back == [p] + (front + back)
  {
  }

  lemma DecidedHidden(values: seq<string>, s: string, future: string, m: nat)
    requires 0 < m <= |s| && m == Longest(values, s) == Longest(values, s + future)
    requires Decided(values, s[m..], future)
    ensures Decided(values, s, future)
  {
    assert (s + future)[m..] == s[m..] + future;
    var rest := Advance(values, s[m..]);
    Prepend(Hidden, rest.0, Redact(values, rest.1 + future));
  }

  /** One literal character of the text, in both forms. */
  lemma LiteralFirst(values: seq<string>, s: string)
    requires s != "" && Longest(values, s) == 0
    ensures Redact(values, s) == [Literal(s[0])] + Redact(values, s[1..])
    ensures !HeldBack(values, s) ==>
      Advance(values, s) == ([Literal(s[0])] + Advance(values, s[1..]).0, Advance(values, s[1..]).1)
  {
  }

  /** The text after its first character, once more may follow. */
  lemma LaterText(s: string, future: string)
    requires s != ""
    ensures (s + future)[0] == s[0] && (s + future)[1..] == s[1..] + future
  {
  }

  lemma DecidedLiteral(values: seq<string>, s: string, future: string)
    requires s != "" && Longest(values, s) == 0 == Longest(values, s + future) && !HeldBack(values, s)
    requires Decided(values, s[1..], future)
    ensures Decided(values, s, future)
  {
    var (front, kept) := Advance(values, s[1..]);
    var back := Redact(values, kept + future);
    LaterText(s, future);
    assert Redact(values, s + future) == [Literal(s[0])] + (front + back) by {
      LiteralFirst(values, s + future);
    }
    assert Advance(values, s) == ([Literal(s[0])] + front, kept) by {
      LiteralFirst(values, s);
    }
    Prepend(Literal(s[0]), front, back);
  }

  lemma SameMatch(values: seq<string>, s: string, future: string)
    requires PrefixFree(values) && Longest(values, s) > 0
    ensures Longest(values, s + future) == Longest(values, s)
  {
    var m, n := Longest(values, s), Longest(values, s + future);
    LongestSpec(values, s);
    LongestSpec(values, s + future);
    assert (s + future)[..m] == s[..m];
    assert Starts(values, s + future, m);
    assert s[..m] <= (s + future)[..n];
  }

  /** Text that neither starts with a value nor may grow into one never will. */
  lemma NoLaterMatch(values: seq<string>, s: string, future: string)
    requires Longest(values, s) == 0 && !HeldBack(values, s)
    ensures NoneStarts(values, s + future) && Longest(values, s + future) == 0
  {
    NoMatchNoStart(values, s);
    forall v | v in values && v != ""
      ensures !(v <= s + future)
    {
      var i :| 0 <= i < |values| && values[i] == v;
      assert !(v <= s) && !(s <= v);
    }
    var all := s + future;
    LongestSpec(values, all);
    assert forall k :: 0 <= k <= |all| ==> all[..k] <= all;
  }

  lemma {:induction false} FeedIsRedact(values: seq<string>, pending: string, chunks: seq<string>)
    requires PrefixFree(values) && chunks != []
    ensures Feed(values, pending, chunks) == Redact(values, pending + Concat(chunks))
    decreases |chunks|
  {
    if |chunks| == 1 {
      assert Concat(chunks) == chunks[0];
    } else {
      var next := Advance(values, pending + chunks[0]);
      FeedIsRedact(values, next.1, chunks[1..]);
      AdvanceIsFinal(values, pending + chunks[0], Concat(chunks[1..]));
      assert pending + Concat(chunks) == pending + chunks[0] + Concat(chunks[1..]);
    }
  }

  /** However the output is split, the filter prints what it would print for the whole text at once. */
  ghost predicate ChunkInvariant(values: seq<string>) {
    forall chunks :: chunks != [] ==>
      Render(Feed(values, "", chunks)) == Render(Redact(values, Concat(chunks)))
  }

  /** Chunk invariance holds exactly for the prefix-free value sets. */
  lemma ChunkInvariantIffPrefixFree(values: seq<string>)
    ensures ChunkInvariant(values) <==> PrefixFree(values)
  {
    if PrefixFree(values) {
      forall chunks | chunks != []
        ensures Render(Feed(values, "", chunks)) == Render(Redact(values, Concat(chunks)))
      {
        FeedIsRedact(values, "", chunks);
        assert "" + Concat(chunks) == Concat(chunks);
      }
    } else {
      var v, w :| v in values && w in values && v != "" && v <= w && v != w;
      PrefixBreaks(values, v, w);
    }
  }

  /** If `v` is a proper prefix of `w`, a chunk that ends after `v` is redacted too early. */
  lemma PrefixBreaks(values: seq<string>, v: string, w: string)
    requires v in values && w in values && v != "" && v < w
    ensures Render(Feed(values, "", [v, w[|v|..]])) != Render(Redact(values, Concat([v, w[|v|..]])))
  {
    var rest := w[|v|..];
    var chunks := [v, rest];
    assert Concat(chunks[1..]) == rest;
    assert v + rest == w;
    WholeValue(values, v);
    WholeValue(values, w);
    assert "" + v == v;
    assert chunks[1..] == [rest];
    assert "" + rest == rest;
    var pieces := Redact(values, rest);
    assert Feed(values, "", chunks) == [Hidden] + pieces;
    assert ([Hidden] + pieces)[1..] == pieces;
    assert |Render(pieces)| > 0;
  }

  lemma WholeValue(values: seq<string>, v: string)
    requires v in values && v != ""
    ensures Redact(values, v) == [Hidden] && Advance(values, v) == ([Hidden], "")
  {
    assert v[..|v|] == v;
    LongestSpec(values, v);
    assert Starts(values, v, |v|);
    assert v[|v|..] == "";
  }

  // ----- Nothing hidden leaks, for any value set and any split -----

  /** The characters passed through before the next redaction. */
  function Run(pieces: seq<Piece>): string {
    if pieces == [] || pieces[0].Hidden? then "" else [pieces[0].c] + Run(pieces[1..])
  }

  predicate AllLiteral(pieces: seq<Piece>) {
    forall i :: 0 <= i < |pieces| ==> pieces[i].Literal?
  }

  /** Text visible from the front of `pieces` on, when they are followed by the text `tail`. */
  function Ahead(pieces: seq<Piece>, tail: string): string {
    Run(pieces) + (if AllLiteral(pieces) then tail else "")
  }

  ghost predicate NoneStarts(values: seq<string>, s: string) {
    forall v :: v in values && v != "" ==> !(v <= s)
  }

  ghost predicate Safe(values: seq<string>, pieces: seq<Piece>, tail: string) {
    pieces == [] ||
    (&& (pieces[0].Literal? ==> NoneStarts(values, Ahead(pieces, tail)))
     && Safe(values, pieces[1..], tail))
  }

  lemma {:induction false} AdvanceSafe(values: seq<string>, s: string, future: string)
    ensures var (pieces, pending) := Advance(values, s);
            && Safe(values, pieces, pending + future)
            && Ahead(pieces, pending + future) <= s + future
            && |pending| <= |s|
    decreases |s|
  {
    if s != "" {
      var m := Longest(values, s);
      if m > 0 {
        AdvanceSafe(values, s[m..], future);
        assert Advance(values, s).0[1..] == Advance(values, s[m..]).0;
      } else if !HeldBack(values, s) {
        AdvanceSafe(values, s[1..], future);
        LiteralStep(values, s, Advance(values, s[1..]).0, Advance(values, s[1..]).1 + future, future);
      }
    }
  }

  lemma {:induction false} RedactSafe(values: seq<string>, s: string)
    ensures Safe(values, Redact(values, s), "") && Run(Redact(values, s)) <= s
    decreases |s|
  {
    if s != "" {
      var m := Longest(values, s);
      if m > 0 {
        RedactSafe(values, s[m..]);
        HiddenSafe(values, Redact(values, s[m..]), "");
      } else {
        RedactSafe(values, s[1..]);
        NoMatchNoStart(values, s);
        LiteralSafe(values, s, Redact(values, s[1..]));
      }
    }
  }

  lemma HiddenSafe(values: seq<string>, rest: seq<Piece>, tail: string)
    requires Safe(values, rest, tail)
    ensures Safe(values, [Hidden] + rest, tail) && Run([Hidden] + rest) == ""
  {
    assert ([Hidden] + rest)[1..] == rest;
  }

  lemma LiteralSafe(values: seq<string>, s: string, rest: seq<Piece>)
    requires s != "" && NoneStarts(values, s) && Safe(values, rest, "") && Run(rest) <= s[1..]
    ensures Safe(values, [Literal(s[0])] + rest, "") && Run([Literal(s[0])] + rest) <= s
  {
    var pieces := [Literal(s[0])] + rest;
    assert pieces[1..] == rest && s == [s[0]] + s[1..];
    assert Ahead(pieces, "") == Run(pieces);
    assert Run(pieces) <= s;
  }

  lemma ConsAhead(c: char, rest: seq<Piece>, tail: string)
    ensures Ahead([Literal(c)] + rest, tail) == [c] + Ahead(rest, tail)
  {
    var pieces := [Literal(c)] + rest;
    assert pieces[1..] == rest;
    assert AllLiteral(pieces) <==> AllLiteral(rest) by {
      assert forall i :: 0 <= i < |rest| ==> rest[i] == pieces[i + 1];
    }
  }

  lemma NoMatchNoStart(values: seq<string>, s: string)
    requires Longest(values, s) == 0
    ensures NoneStarts(values, s)
  {
    LongestSpec(values, s);
    forall v | v in values && v != ""
      ensures !(v <= s)
    {
      if v <= s {
        assert s[..|v|] == v;
        assert Starts(values, s, |v|);
      }
    }
  }

  lemma LiteralStep(values: seq<string>, s: string, rest: seq<Piece>, tail: string, future: string)
    requires s != "" && Longest(values, s) == 0 && !HeldBack(values, s)
    requires Safe(values, rest, tail) && Ahead(rest, tail) <= s[1..] + future
    ensures Safe(values, [Literal(s[0])] + rest, tail)
    ensures Ahead([Literal(s[0])] + rest, tail) <= s + future
  {
    NoLaterMatch(values, s, future);
    ConsAhead(s[0], rest, tail);
    var pieces := [Literal(s[0])] + rest;
    assert pieces[1..] == rest;
    assert s + future == [s[0]] + (s[1..] + future);
    assert Ahead(pieces, tail) <= s + future;
  }

  lemma {:induction false} SafeAppend(values: seq<string>, front: seq<Piece>, tail: string, back: seq<Piece>)
    requires Safe(values, front, tail) && Safe(values, back, "") && Run(back) <= tail
    ensures Safe(values, front + back, "")
    ensures Run(front + back) <= Ahead(front, tail)
  {
    if front == [] {
      assert front + back == back;
    } else {
      SafeAppend(values, front[1..], tail, back);
      assert (front + back)[1..] == front[1..] + back;
      assert front == [front[0]] + front[1..];
      if front[0].Literal? {
        ConsAhead(front[0].c, front[1..], tail);
        ConsAhead(front[0].c, front[1..] + back, "");
        assert front + back == [Literal(front[0].c)] + (front[1..] + back);
        assert Ahead(front[1..] + back, "") == Run(front[1..] + back);
      }
    }
  }

  lemma {:induction false} FeedSafe(values: seq<string>, pending: string, chunks: seq<string>)
    requires chunks != []
    ensures Safe(values, Feed(values, pending, chunks), "")
    ensures Run(Feed(values, pending, chunks)) <= pending + Concat(chunks)
    decreases |chunks|
  {
    if |chunks| == 1 {
      RedactSafe(values, pending + chunks[0]);
      assert Concat(chunks) == chunks[0];
    } else {
      var (front, kept) := Advance(values, pending + chunks[0]);
      var future := Concat(chunks[1..]);
      var back := Feed(values, kept, chunks[1..]);
      assert Feed(values, pending, chunks) == front + back;
      assert pending + Concat(chunks) == pending + chunks[0] + future;
      FeedSafe(values, kept, chunks[1..]);
      FeedJoins(values, pending + chunks[0], future, back);
    }
  }

  lemma FeedJoins(values: seq<string>, s: string, future: string, back: seq<Piece>)
    requires Safe(values, back, "") && Run(back) <= Advance(values, s).1 + future
    ensures Safe(values, Advance(values, s).0 + back, "") && Run(Advance(values, s).0 + back) <= s + future
  {
    var (front, kept) := Advance(values, s);
    AdvanceSafe(values, s, future);
    SafeAppend(values, front, kept + future, back);
  }

  /** `value` can be read in the output at position `i`, without a redaction in between. */
  ghost predicate Leaks(pieces: seq<Piece>, i: nat, value: string) {
    i + |value| <= |pieces| && forall k :: 0 <= k < |value| ==> pieces[i..][k] == Literal(value[k])
  }

  /** For any value set and any split of the output, no hidden value can be read in the filtered output. */
  lemma NothingLeaks(values: seq<string>, chunks: seq<string>, i: nat, value: string)
    requires chunks != [] && value in values && value != ""
    ensures !Leaks(Feed(values, "", chunks), i, value)
  {
    var pieces := Feed(values, "", chunks);
    FeedSafe(values, "", chunks);
    if i <= |pieces| {
      SafeSuffix(values, pieces, i);
      if Leaks(pieces, i, value) {
        LeakIsRun(pieces[i..], value);
      }
    }
  }

  lemma {:induction false} SafeSuffix(values: seq<string>, pieces: seq<Piece>, i: nat)
    requires Safe(values, pieces, "") && i <= |pieces|
    ensures Safe(values, pieces[i..], "")
    decreases i
  {
    if i > 0 {
      SafeSuffix(values, pieces[1..], i - 1);
      assert pieces[1..][i - 1..] == pieces[i..];
    } else {
      assert pieces[0..] == pieces;
    }
  }

  lemma {:induction false} LeakIsRun(pieces: seq<Piece>, value: string)
    requires |value| <= |pieces| && forall k :: 0 <= k < |value| ==> pieces[k] == Literal(value[k])
    ensures value <= Run(pieces)
    decreases |value|
  {
    if value != "" {
      LeakIsRun(pieces[1..], value[1..]);
      assert value == [value[0]] + value[1..];
    }
  }

  /** What is held back is always shorter than the value it may become. */
  lemma {:induction false} PendingIsShort(values: seq<string>, s: string)
    ensures var pending := Advance(values, s).1;
            pending != "" ==> exists v :: v in values && pending < v
    decreases |s|
  {
    if s != "" {
      var m := Longest(values, s);
      if m > 0 {
        PendingIsShort(values, s[m..]);
      } else if !HeldBack(values, s) {
        PendingIsShort(values, s[1..]);
      } else {
        var i :| 0 <= i < |values| && values[i] != "" && s <= values[i];
        NoMatchNoStart(values, s);
        assert values[i] in values && s < values[i];
      }
    }
  }

  // ----- Nothing but values is hidden -----

  /** The output is the text with some of its values replaced by marks, and nothing else changed. */
  ghost predicate Spells(values: seq<string>, pieces: seq<Piece>, s: string)
    decreases |pieces|
  {
    if pieces == [] then s == ""
    else match pieces[0]
      case Literal(c) => s != "" && s[0] == c && Spells(values, pieces[1..], s[1..])
      case Hidden => exists n :: Starts(values, s, n) && Spells(values, pieces[1..], s[n..])
  }

  lemma SpellsHidden(values: seq<string>, rest: seq<Piece>, s: string, n: nat)
    requires Starts(values, s, n) && Spells(values, rest, s[n..])
    ensures Spells(values, [Hidden] + rest, s)
  {
    assert ([Hidden] + rest)[1..] == rest;
  }

  lemma SpellsLiteral(values: seq<string>, rest: seq<Piece>, s: string)
    requires s != "" && Spells(values, rest, s[1..])
    ensures Spells(values, [Literal(s[0])] + rest, s)
  {
    assert ([Literal(s[0])] + rest)[1..] == rest;
  }

  lemma {:induction false} RedactSpells(values: seq<string>, s: string)
    ensures Spells(values, Redact(values, s), s)
    decreases |s|
  {
    if s != "" {
      var m := Longest(values, s);
      LongestSpec(values, s);
      if m > 0 {
        RedactSpells(values, s[m..]);
        SpellsHidden(values, Redact(values, s[m..]), s, m);
      } else {
        RedactSpells(values, s[1..]);
        SpellsLiteral(values, Redact(values, s[1..]), s);
      }
    }
  }

  /** What is settled early and what follows spell the text together. */
  lemma {:induction false} AdvanceSpells(values: seq<string>, s: string, future: string, back: seq<Piece>)
    requires Spells(values, back, Advance(values, s).1 + future)
    ensures Spells(values, Advance(values, s).0 + back, s + future)
    decreases |s|
  {
    if s == "" {
      assert [] + back == back && "" + future == s + future;
    } else {
      var m := Longest(values, s);
      LongestSpec(values, s);
      if m > 0 {
        var rest := Advance(values, s[m..]);
        AdvanceSpells(values, s[m..], future, back);
        assert (s + future)[..m] == s[..m] && (s + future)[m..] == s[m..] + future;
        SpellsHidden(values, rest.0 + back, s + future, m);
        Prepend(Hidden, rest.0, back);
      } else if HeldBack(values, s) {
        assert [] + back == back;
      } else {
        var rest := Advance(values, s[1..]);
        AdvanceSpells(values, s[1..], future, back);
        assert (s + future)[1..] == s[1..] + future;
        SpellsLiteral(values, rest.0 + back, s + future);
        Prepend(Literal(s[0]), rest.0, back);
      }
    }
  }

  lemma {:induction false} FeedSpells(values: seq<string>, pending: string, chunks: seq<string>)
    requires chunks != []
    ensures Spells(values, Feed(values, pending, chunks), pending + Concat(chunks))
    decreases |chunks|
  {
    if |chunks| == 1 {
      RedactSpells(values, pending + chunks[0]);
      assert Concat(chunks) == chunks[0];
    } else {
      var kept, future := Advance(values, pending + chunks[0]).1, Concat(chunks[1..]);
      FeedSpells(values, kept, chunks[1..]);
      AdvanceSpells(values, pending + chunks[0], future, Feed(values, kept, chunks[1..]));
      assert pending + Concat(chunks) == pending + chunks[0] + future;
    }
  }

  /** For any value set and any split only values are hidden, and all other text comes through as it is, in order. */
  lemma OnlyValuesHidden(values: seq<string>, chunks: seq<string>)
    requires chunks != []
    ensures Spells(values, Feed(values, "", chunks), Concat(chunks))
  {
    FeedSpells(values, "", chunks);
    assert "" + Concat(chunks) == Concat(chunks);
  }
}
