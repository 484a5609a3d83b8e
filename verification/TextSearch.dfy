/**
  The per-file scan of the bounded text search
  (reuleauxcoder-agent/internal/workspace/text_search.go:86-190), over file bytes.
 */
module TextSearch {
  import opened Prelude
  import opened Utf8
  import opened Lines
  import opened TextPage

  const LF: byte := 0x0A
  const NOTE := " \U{2026} [line truncated]"

  // ----- Decoding -----

  /** The code point the `n` bytes at `i` encode. */
  function CodePoint(s: seq<byte>, i: nat, n: nat): int
    requires 1 <= n <= 4 && i + n <= |s|
  {
    var a: int := s[i];
    var b: int := if n >= 2 then s[i + 1] as int - 0x80 else 0;
    var c: int := if n >= 3 then s[i + 2] as int - 0x80 else 0;
    var d: int := if n >= 4 then s[i + 3] as int - 0x80 else 0;
    if n == 1 then a
    else if n == 2 then (a - 0xC0) * 64 + b
    else if n == 3 then (a - 0xE0) * 4096 + b * 64 + c
    else (a - 0xF0) * 262144 + b * 4096 + c * 64 + d
  }

  predicate IsScalar(v: int) {
    0 <= v < 0xD800 || 0xE000 <= v < 0x11_0000
  }

  function CharAt(s: seq<byte>, i: nat, n: nat): char
    requires 1 <= n <= 4 && i + n <= |s|
  {
    var v := CodePoint(s, i, n);
    if IsScalar(v) then v as char else '\U{FFFD}'
  }

  /** The grammar only admits encodings of scalar values, each in its shortest form. */
  lemma CharIsScalar(s: seq<byte>, i: nat, e: nat)
    requires i <= e <= |s| && CharLength(s, i, e) > 0
    ensures var n := CharLength(s, i, e);
            var v := CodePoint(s, i, n);
            && IsScalar(v)
            && n == if v < 0x80 then 1 else if v < 0x800 then 2 else if v < 0x10000 then 3 else 4
  {
  }

  /** One decoded unit: a character and where it is, or a replacement. */
  datatype Token = Char(at: nat, size: nat) | Replacement

  function Read(s: seq<byte>, t: Token): char {
    if t.Char? && 1 <= t.size <= 4 && t.at + t.size <= |s| then CharAt(s, t.at, t.size) else '\U{FFFD}'
  }

  function Text(s: seq<byte>, tokens: seq<Token>): string {
    seq(|tokens|, k requires 0 <= k < |tokens| => Read(s, tokens[k]))
  }

  /** `strings.ToValidUTF8(s[i:e], "\ufffd")`: a run of invalid bytes becomes one replacement. */
  function RepairedTokens(s: seq<byte>, i: nat, e: nat, inBadRun: bool): seq<Token>
    requires i <= e <= |s|
    decreases e - i
  {
    if i == e then []
    else if CharLength(s, i, e) > 0 then
      [Char(i, CharLength(s, i, e))] + RepairedTokens(s, i + CharLength(s, i, e), e, false)
    else
      (if inBadRun then [] else [Replacement]) + RepairedTokens(s, i + 1, e, true)
  }

  /** What `ReadRune` yields for `s[i:e]`: one replacement for every invalid byte. */
  function RuneTokens(s: seq<byte>, i: nat, e: nat): seq<Token>
    requires i <= e <= |s|
    decreases e - i
  {
    if i == e then []
    else if CharLength(s, i, e) > 0 then
      [Char(i, CharLength(s, i, e))] + RuneTokens(s, i + CharLength(s, i, e), e)
    else
      [Replacement] + RuneTokens(s, i + 1, e)
  }

  function Repaired(s: seq<byte>, i: nat, e: nat): string
    requires i <= e <= |s|
  {
    Text(s, RepairedTokens(s, i, e, false))
  }

  function Runes(s: seq<byte>, i: nat, e: nat): string
    requires i <= e <= |s|
  {
    Text(s, RuneTokens(s, i, e))
  }

  lemma {:induction false} ValidReadsAlike(s: seq<byte>, i: nat, e: nat)
    requires i <= e <= |s| && Valid(s, i, e)
    ensures RepairedTokens(s, i, e, false) == RuneTokens(s, i, e)
    decreases e - i
  {
    if i < e {
      ValidReadsAlike(s, i + CharLength(s, i, e), e);
    }
  }

  /** No character reaches across a line feed. */
  lemma CharStopsAtLF(s: seq<byte>, i: nat, m: nat, e: nat)
    requires i < m <= e <= |s| && s[m - 1] == LF
    ensures CharLength(s, i, m) == CharLength(s, i, e)
  {
    if CharLength(s, i, e) > 0 {
      DecodeAgrees(s, i, e);
      CharCut(s, i, m, e);
    }
  }

  lemma {:induction false} TokensSplit(s: seq<byte>, i: nat, m: nat, e: nat, bad: bool)
    requires i <= m <= e <= |s| && m > 0 && s[m - 1] == LF && (i == m ==> !bad)
    ensures RepairedTokens(s, i, e, bad) == RepairedTokens(s, i, m, bad) + RepairedTokens(s, m, e, false)
    decreases m - i
  {
    if i < m {
      CharStopsAtLF(s, i, m, e);
      var n := CharLength(s, i, e);
      if n > 0 {
        TokensSplit(s, i + n, m, e, false);
      } else {
        TokensSplit(s, i + 1, m, e, true);
      }
    }
  }

  /** The first token of `s[i..e]`, which takes `n` bytes as a character or one as none. */
  function FirstToken(i: nat, n: nat, bad: bool): seq<Token> {
    if n > 0 then [Char(i, n)] else if bad then [] else [Replacement]
  }

  lemma TokensUnfold(s: seq<byte>, i: nat, e: nat, bad: bool, n: nat, k: nat)
    requires i < e <= |s| && n == CharLength(s, i, e) && k == (if n > 0 then i + n else i + 1) && k <= e
    ensures RepairedTokens(s, i, e, bad) == FirstToken(i, n, bad) + RepairedTokens(s, k, e, n == 0)
  {
  }

  /** One token, and the tokens behind it up to a line feed or past it. */
  lemma LastTokenStep(s: seq<byte>, i: nat, m: nat, bad: bool, n: nat, k: nat, ahead: seq<Token>)
    requires i + 1 < m <= |s| && n == CharLength(s, i, m) == CharLength(s, i, m - 1)
    requires k == (if n > 0 then i + n else i + 1) && k < m
    requires ahead == RepairedTokens(s, k, m - 1, n == 0) && RepairedTokens(s, k, m, n == 0) == ahead + [Char(m - 1, 1)]
    ensures RepairedTokens(s, i, m, bad) == RepairedTokens(s, i, m - 1, bad) + [Char(m - 1, 1)]
  {
    TokensUnfold(s, i, m, bad, n, k);
    TokensUnfold(s, i, m - 1, bad, n, k);
    Regroup(FirstToken(i, n, bad), ahead, [Char(m - 1, 1)]);
  }

  lemma {:induction false} LastTokenIsLF(s: seq<byte>, i: nat, m: nat, bad: bool)
    requires i < m <= |s| && s[m - 1] == LF
    ensures RepairedTokens(s, i, m, bad) == RepairedTokens(s, i, m - 1, bad) + [Char(m - 1, 1)]
    decreases m - i
  {
    if i + 1 == m {
      LoneLF(s, i, bad);
    } else {
      CharBeforeLF(s, i, m);
      var n := CharLength(s, i, m);
      var k := if n > 0 then i + n else i + 1;
      LastTokenIsLF(s, k, m, n == 0);
      LastTokenStep(s, i, m, bad, n, k, RepairedTokens(s, k, m - 1, n == 0));
    }
  }

  lemma LoneLF(s: seq<byte>, i: nat, bad: bool)
    requires i < |s| && s[i] == LF
    ensures RepairedTokens(s, i, i + 1, bad) == [Char(i, 1)] && RepairedTokens(s, i, i, bad) == []
  {
    assert RepairedTokens(s, i + 1, i + 1, false) == [];
  }

  lemma Regroup(a: seq<Token>, b: seq<Token>, c: seq<Token>)
    ensures a + (b + c) == (a + b) + c
  {
  }

  lemma CharBeforeLF(s: seq<byte>, i: nat, m: nat)
    requires i + 1 < m <= |s| && s[m - 1] == LF
    ensures CharLength(s, i, m) == CharLength(s, i, m - 1)
  {
    if CharLength(s, i, m) > 0 {
      DecodeAgrees(s, i, m);
      CharCut(s, i, m - 1, m);
    }
  }

  lemma RepairedSplit(s: seq<byte>, i: nat, m: nat, e: nat)
    requires i < m <= e <= |s| && s[m - 1] == LF
    ensures Repaired(s, i, e) == Repaired(s, i, m) + Repaired(s, m, e)
    ensures Repaired(s, i, m) != "" && Repaired(s, i, m)[|Repaired(s, i, m)| - 1] == '\n'
  {
    TokensSplit(s, i, m, e, false);
    LastTokenIsLF(s, i, m, false);
    assert CharAt(s, m - 1, 1) == '\n';
  }

  /** All lines of a file from position `i` on. */
  function FileLines(content: seq<byte>, i: nat): seq<string>
    requires i <= |content|
  {
    SplitLines(Repaired(content, i, |content|))
  }

  /** Reading up to and including a line feed splits the lines of the file there. */
  lemma PieceLines(content: seq<byte>, i: nat, m: nat)
    requires i < m <= |content| && content[m - 1] == LF
    ensures FileLines(content, i) == SplitLines(Repaired(content, i, m)) + FileLines(content, m)
  {
    RepairedSplit(content, i, m, |content|);
    SplitAtLineFeed(Repaired(content, i, m), Repaired(content, m, |content|));
  }

  // ----- Hits and reports -----

  /** Lines are numbered from 1 on. */
  type LineNumber = n: nat | n >= 1 witness 1

  datatype Hit = Hit(number: LineNumber, line: string)

  /** The matching ones of the first `n` lines, numbered from `base + 1` on. */
  function Hits(matches: string -> bool, lines: seq<string>, n: nat, base: nat): seq<Hit>
    requires n <= |lines|
  {
    if n == 0 then []
    else Hits(matches, lines, n - 1, base)
         + if matches(lines[n - 1]) then [Hit(base + n, lines[n - 1])] else []
  }

  lemma {:induction false} HitsGrow(matches: string -> bool, lines: seq<string>, m: nat, n: nat, base: nat)
    requires m <= n <= |lines|
    ensures Hits(matches, lines, m, base) <= Hits(matches, lines, n, base)
    decreases n - m
  {
    if m < n {
      HitsGrow(matches, lines, m, n - 1, base);
    }
  }

  /** Hits of a middle part of the lines, found with the right numbers. */
  lemma {:induction false} HitsShift(matches: string -> bool, all: seq<string>, base: nat, lines: seq<string>, n: nat)
    requires n <= |lines| && base + |lines| <= |all|
    requires forall k :: 0 <= k < |lines| ==> lines[k] == all[base + k]
    ensures Hits(matches, all, base + n, 0) == Hits(matches, all, base, 0) + Hits(matches, lines, n, base)
  {
    if n > 0 {
      HitsShift(matches, all, base, lines, n - 1);
    }
  }

  /** Every hit carries the line its number names. */
  lemma {:induction false} HitNamesLine(matches: string -> bool, lines: seq<string>, n: nat, base: nat, h: Hit)
    requires n <= |lines| && h in Hits(matches, lines, n, base)
    ensures base < h.number <= base + n && lines[h.number - base - 1] == h.line && matches(h.line)
  {
    if !(matches(lines[n - 1]) && h == Hit(base + n, lines[n - 1])) {
      HitNamesLine(matches, lines, n - 1, base, h);
    }
  }

  datatype Match = Match(path: string, number: nat, line: string, truncated: bool)

  datatype Reason = Timeout | EntryLimit | FileLimit | FileSize | ScanBytes | OutputChars | MatchLimit | LineChars

  datatype Limits = Limits(
    maxFiles: nat, maxMatches: nat, fileBytes: nat, scanBytes: nat, lineChars: nat, outputChars: nat)

  predicate Positive(limits: Limits) {
    && limits.maxFiles >= 1 && limits.maxMatches >= 1 && limits.fileBytes >= 1
    && limits.scanBytes >= 1 && limits.lineChars >= 1 && limits.outputChars >= 1
  }

  /** One search: its limits, the line matcher and the host's notion of white space. */
  datatype Search = Search(limits: Limits, matcher: string -> bool, isSpace: char -> bool)

  function TrimRight(isSpace: char -> bool, line: string): string {
    if line == "" || !isSpace(line[|line| - 1]) then line
    else TrimRight(isSpace, line[..|line| - 1])
  }

  function Digits(n: nat): nat {
    if n < 10 then 1 else 1 + Digits(n / 10)
  }

  function PowerOfTen(d: nat): nat {
    if d == 0 then 1 else 10 * PowerOfTen(d - 1)
  }

  /** A line number costs as many characters as its decimal form has. */
  lemma {:induction false} DigitsCount(n: nat)
    requires n >= 1
    ensures PowerOfTen(Digits(n) - 1) <= n < PowerOfTen(Digits(n))
  {
    if n >= 10 {
      DigitsCount(n / 10);
    }
  }

  /** The reported form of a hit: right-trimmed and cut to the line limit. */
  function Report(search: Search, path: string, h: Hit): Match {
    var line := TrimRight(search.isSpace, h.line);
    var most := search.limits.lineChars;
    if |line| > most then Match(path, h.number, line[..most], true)
    else Match(path, h.number, line, false)
  }

  /** `after` is `before` with the reports of `hits` added. */
  ghost predicate Added(search: Search, path: string, hits: seq<Hit>, before: seq<Match>, after: seq<Match>) {
    && |after| == |before| + |hits|
    && before <= after
    && forall k :: 0 <= k < |hits| ==> after[|before| + k] == Report(search, path, hits[k])
  }

  lemma AddMore(search: Search, path: string, first: seq<Hit>, next: seq<Hit>,
                before: seq<Match>, middle: seq<Match>, after: seq<Match>)
    requires Added(search, path, first, before, middle) && Added(search, path, next, middle, after)
    ensures Added(search, path, first + next, before, after)
  {
    forall k | 0 <= k < |first + next|
      ensures after[|before| + k] == Report(search, path, (first + next)[k])
    {
      if k < |first| {
        assert middle[|before| + k] == Report(search, path, first[k]);
      } else {
        assert after[|middle| + (k - |first|)] == Report(search, path, next[k - |first|]);
      }
    }
  }

  lemma {:induction false} CostSame(a: seq<Match>, b: seq<Match>, n: nat)
    requires n <= |a| <= |b| && a <= b
    ensures CostOf(a, n) == CostOf(b, n)
  {
    if n > 0 {
      CostSame(a, b, n - 1);
    }
  }

  function Cost(m: Match): nat {
    |m.path| + Digits(m.number) + |m.line| + 4 + (if m.truncated then |NOTE| else 0)
  }

  function CostOf(ms: seq<Match>, n: nat): nat
    requires n <= |ms|
  {
    if n == 0 then 0 else CostOf(ms, n - 1) + Cost(ms[n - 1])
  }

  function TotalCost(ms: seq<Match>): nat {
    CostOf(ms, |ms|)
  }

  /** How a file's scan ended. */
  datatype Outcome = Finished | Skipped | Stopped(reason: Reason)

  // ----- The search -----

  /** The counters and results the visits of one search share. */
  datatype Tally = Tally(
    matches: seq<Match>, reasons: set<Reason>, scannedFiles: nat, scannedBytes: nat, outputChars: nat)

  /** Some line was cut. */
  predicate Shortened(matches: seq<Match>) {
    exists k :: 0 <= k < |matches| && matches[k].truncated
  }

  /** The reasons that can be read off the counters and matches are given exactly when they hold. */
  predicate Honest(search: Search, t: Tally) {
    && (LineChars in t.reasons <==> Shortened(t.matches))
    && (MatchLimit in t.reasons <==> |t.matches| >= search.limits.maxMatches)
    && (ScanBytes in t.reasons <==> t.scannedBytes > search.limits.scanBytes)
  }

  /** What holds between two visits while the search goes on. */
  predicate Going(search: Search, t: Tally) {
    && Positive(search.limits)
    && t.scannedBytes <= search.limits.scanBytes
    && t.outputChars == TotalCost(t.matches) <= search.limits.outputChars
    && |t.matches| < search.limits.maxMatches
    && t.scannedFiles <= search.limits.maxFiles
    && Honest(search, t) && t.reasons <= {FileSize, LineChars}
  }

  /** What holds even after the search stopped. */
  predicate Bounded(search: Search, t: Tally) {
    && t.scannedBytes <= search.limits.scanBytes + 1
    && t.outputChars == TotalCost(t.matches) <= search.limits.outputChars
    && |t.matches| <= search.limits.maxMatches
    && t.scannedFiles <= search.limits.maxFiles
    && Honest(search, t)
  }

  /** The reasons added: a cut line, a file that is too large, and what stopped the search. */
  predicate Blames(t: Tally, t': Tally, stop: Option<Reason>, large: bool) {
    && t.reasons <= t'.reasons
    && t'.reasons <= t.reasons + {LineChars} + (if large then {FileSize} else {})
                     + (if stop.Some? then {stop.value} else {})
    && (stop.Some? ==> stop.value in t'.reasons && stop.value != FileSize && stop.value != LineChars)
  }

  /** The next of the hits `all`, after those reported, does not fit into the output. */
  predicate Overflows(search: Search, path: string, all: seq<Hit>, reported: nat, t: Tally) {
    reported < |all| && t.outputChars + Cost(Report(search, path, all[reported])) > search.limits.outputChars
  }

  /** Index just after the next line feed of `content[i..e]`, or `e`. */
  method ReadString(content: seq<byte>, i: nat, e: nat) returns (m: nat, eof: bool)
    requires i <= e <= |content|
    ensures i <= m <= e
    ensures if eof then m == e && (forall k :: i <= k < e ==> content[k] != LF)
            else i < m && content[m - 1] == LF && (forall k :: i <= k < m - 1 ==> content[k] != LF)
  {
    m := i;
    while m < e
      invariant i <= m <= e
      invariant forall k :: i <= k < m ==> content[k] != LF
    {
      m := m + 1;
      if content[m - 1] == LF {
        return m, false;
      }
    }
    return e, true;
  }

  /** Reports one hit unless the output budget is used up; `stop` ends the search. */
  method ReportHit(search: Search, t: Tally, path: string, h: Hit)
    returns (t': Tally, stop: Option<Reason>, added: bool)
    requires Going(search, t)
    ensures if stop.Some? then Bounded(search, t') else Going(search, t') && added
    ensures t'.matches == t.matches + if added then [Report(search, path, h)] else []
    ensures t'.scannedBytes == t.scannedBytes && t'.scannedFiles == t.scannedFiles
    ensures Blames(t, t', stop, false) && (stop.Some? ==> stop.value == if added then MatchLimit else OutputChars)
    ensures !added ==> t'.outputChars + Cost(Report(search, path, h)) > search.limits.outputChars
  {
    t' := t;
    stop := None;
    var line := TrimRight(search.isSpace, h.line);
    var shortened := |line| > search.limits.lineChars;
    if shortened {
      line := line[..search.limits.lineChars];
    }
    var m := Match(path, h.number, line, shortened);
    if t.outputChars + Cost(m) > search.limits.outputChars {
      return t.(reasons := t.reasons + {OutputChars}), Some(OutputChars), false;
    }
    CostSame(t.matches, t.matches + [m], |t.matches|);
    t' := t'.(outputChars := t.outputChars + Cost(m), matches := t.matches + [m]);
    if shortened {
      t' := t'.(reasons := t'.reasons + {LineChars});
    }
    if |t'.matches| >= search.limits.maxMatches {
      stop := Some(MatchLimit);
      t' := t'.(reasons := t'.reasons + {MatchLimit});
    }
    return t', stop, true;
  }

  /** Reports the hits among `lines`, which are numbered from `base + 1` on; stops at a limit. */
  method ReportLines(search: Search, t: Tally, path: string, lines: seq<string>, base: nat)
    returns (t': Tally, stop: Option<Reason>, ghost hits: seq<Hit>)
    requires Going(search, t)
    ensures if stop.Some? then Bounded(search, t') else Going(search, t')
    ensures hits <= Hits(search.matcher, lines, |lines|, base)
    ensures stop == None ==> hits == Hits(search.matcher, lines, |lines|, base)
    ensures Added(search, path, hits, t.matches, t'.matches)
    ensures t'.scannedBytes == t.scannedBytes && t'.scannedFiles == t.scannedFiles
    ensures Blames(t, t', stop, false) && (stop.Some? ==> stop.value == OutputChars || stop.value == MatchLimit)
    ensures stop == Some(OutputChars) ==>
      Overflows(search, path, Hits(search.matcher, lines, |lines|, base), |hits|, t')
  {
    t', stop, hits := t, None, [];
    for n := 0 to |lines|
      invariant Reporting(search, t, t', path, lines, base, n, hits) && stop == None
    {
      t', stop, hits := ReportNext(search, t, t', path, lines, base, n, hits);
      if stop.Some? {
        return;
      }
    }
  }

  /** The first `n` lines are done with. */
  ghost predicate Reporting(search: Search, t: Tally, t': Tally, path: string, lines: seq<string>, base: nat, n: nat,
                            hits: seq<Hit>)
  {
    && n <= |lines| && Going(search, t') && hits == Hits(search.matcher, lines, n, base)
    && Added(search, path, hits, t.matches, t'.matches)
    && t'.scannedBytes == t.scannedBytes && t'.scannedFiles == t.scannedFiles && Blames(t, t', None, false)
  }

  /** One line more. */
  method ReportNext(search: Search, ghost t: Tally, t1: Tally, path: string, lines: seq<string>, base: nat, n: nat,
                    ghost sofar: seq<Hit>)
    returns (t': Tally, stop: Option<Reason>, ghost hits: seq<Hit>)
    requires n < |lines| && Reporting(search, t, t1, path, lines, base, n, sofar)
    ensures if stop.Some? then Bounded(search, t') else Reporting(search, t, t', path, lines, base, n + 1, hits)
    ensures hits <= Hits(search.matcher, lines, |lines|, base) && Added(search, path, hits, t.matches, t'.matches)
    ensures t'.scannedBytes == t.scannedBytes && t'.scannedFiles == t.scannedFiles && Blames(t, t', stop, false)
    ensures stop.Some? ==> stop.value == OutputChars || stop.value == MatchLimit
    ensures stop == Some(OutputChars) ==>
      Overflows(search, path, Hits(search.matcher, lines, |lines|, base), |hits|, t')
  {
    t', stop, hits := t1, None, sofar;
    HitsGrow(search.matcher, lines, n + 1, |lines|, base);
    if search.matcher(lines[n]) {
      var hit := Hit(base + n + 1, lines[n]);
      var added;
      t', stop, added := ReportHit(search, t1, path, hit);
      if added {
        AddMore(search, path, sofar, [hit], t.matches, t1.matches, t'.matches);
        hits := sofar + [hit];
      }
    }
  }

  /** The lines of a piece are the next lines of the file, whether it ends at a line feed or at the end. */
  lemma Piece(content: seq<byte>, start: nat, m: nat, eof: bool, rest: seq<string>, lines: seq<string>)
    returns (next: seq<string>)
    requires start <= m <= |content| && rest == FileLines(content, start)
    requires lines == SplitLines(Repaired(content, start, m))
    requires if eof then m == |content| else start < m && content[m - 1] == LF
    ensures rest == lines + next && next == FileLines(content, m)
  {
    next := FileLines(content, m);
    if !eof {
      PieceLines(content, start, m);
    }
  }

  /** Hits reported from the lines that follow the `base` lines already done. */
  lemma PieceHits(matches: string -> bool, all: seq<string>, base: nat, lines: seq<string>, next: seq<string>,
                  found: seq<Hit>)
    requires base <= |all| && all[base..] == lines + next
    requires found <= Hits(matches, lines, |lines|, base)
    ensures base + |lines| <= |all| && all[base + |lines|..] == next
    ensures Hits(matches, all, base, 0) + found <= Hits(matches, all, |all|, 0)
    ensures found == Hits(matches, lines, |lines|, base) ==>
            Hits(matches, all, base, 0) + found == Hits(matches, all, base + |lines|, 0)
  {
    assert forall k :: 0 <= k < |lines| ==> lines[k] == all[base..][k];
    assert forall k :: 0 <= k < |next| ==> next[k] == all[base..][|lines| + k];
    HitsShift(matches, all, base, lines, |lines|);
    HitsGrow(matches, all, base + |lines|, |all|, 0);
  }

  /** The hit of the piece that did not fit is the next hit of the file. */
  lemma PieceOverflows(search: Search, path: string, all: seq<string>, base: nat, lines: seq<string>,
                       next: seq<string>, reported: nat, t: Tally)
    requires base <= |all| && all[base..] == lines + next
    requires Overflows(search, path, Hits(search.matcher, lines, |lines|, base), reported, t)
    ensures Overflows(search, path, Hits(search.matcher, all, |all|, 0),
                      |Hits(search.matcher, all, base, 0)| + reported, t)
  {
    PieceHits(search.matcher, all, base, lines, next, Hits(search.matcher, lines, |lines|, base));
  }

  function Min(a: nat, b: nat): nat {
    if a <= b then a else b
  }

  /** The file's hits reported so far: all of those among its first `n` lines. */
  ghost predicate Progress(search: Search, path: string, content: seq<byte>, all: seq<string>, i: nat, n: nat,
                           hits: seq<Hit>, before: seq<Match>, after: seq<Match>) {
    && i <= |content| && n <= |all| && all[n..] == FileLines(content, i)
    && hits == Hits(search.matcher, all, n, 0)
    && Added(search, path, hits, before, after)
  }

  /** One piece of the file is searched. */
  method SearchPiece(search: Search, t: Tally, path: string, content: seq<byte>, start: nat, m: nat, eof: bool,
                     lineNumber: nat, ghost all: seq<string>, ghost sofar: seq<Hit>, ghost before: seq<Match>)
    returns (t': Tally, stop: Option<Reason>, count: nat, ghost hits: seq<Hit>)
    requires Going(search, t) && start <= m <= |content|
    requires if eof then m == |content| else start < m && content[m - 1] == LF
    requires Progress(search, path, content, all, start, lineNumber, sofar, before, t.matches)
    ensures if stop.Some? then Bounded(search, t') else Going(search, t')
    ensures hits <= Hits(search.matcher, all, |all|, 0)
    ensures Added(search, path, hits, before, t'.matches)
    ensures stop == None ==> Progress(search, path, content, all, m, lineNumber + count, hits, before, t'.matches)
    ensures t'.scannedBytes == t.scannedBytes && t'.scannedFiles == t.scannedFiles
    ensures Blames(t, t', stop, false) && (stop.Some? ==> stop.value == OutputChars || stop.value == MatchLimit)
    ensures stop == Some(OutputChars) ==> Overflows(search, path, Hits(search.matcher, all, |all|, 0), |hits|, t')
  {
    var lines := PythonSplitLines(Repaired(content, start, m));
    ghost var next := Piece(content, start, m, eof, all[lineNumber..], lines);
    ghost var found;
    t', stop, found := ReportLines(search, t, path, lines, lineNumber);
    hits := sofar + found;
    count := |lines|;
    assert Added(search, path, hits, before, t'.matches) by {
      AddMore(search, path, sofar, found, before, t.matches, t'.matches);
    }
    PieceHits(search.matcher, all, lineNumber, lines, next, found);
    if stop == Some(OutputChars) {
      PieceOverflows(search, path, all, lineNumber, lines, next, |found|, t');
    }
  }

  /** Where the limited reader of a file ends. */
  function ReadEnd(limits: Limits, scanned: nat, size: nat): nat
    requires scanned <= limits.scanBytes
  {
    Min(size, Min(limits.fileBytes, limits.scanBytes - scanned) + 1)
  }

  /** A skipped file is too large, which is reported, or holds a NUL byte. */
  predicate SkipTrue(search: Search, t: Tally, content: seq<byte>) {
    (|content| > search.limits.fileBytes && FileSize in t.reasons) || 0 in content
  }

  /** The reason a scan was stopped for. */
  function StopOf(outcome: Option<Outcome>): Option<Reason> {
    if outcome.Some? && outcome.value.Stopped? then Some(outcome.value.reason) else None
  }

  /** Reads the next piece and checks the budgets; the clock may expire before it. */
  method ReadPiece(search: Search, t: Tally, content: seq<byte>, start: nat, end: nat)
    returns (t': Tally, m: nat, eof: bool, outcome: Option<Outcome>)
    requires Going(search, t) && start <= end <= |content|
    requires start <= t.scannedBytes && start <= search.limits.fileBytes
    requires end == ReadEnd(search.limits, t.scannedBytes - start, |content|)
    ensures start <= m <= end && t'.matches == t.matches && t'.outputChars == t.outputChars
    ensures t'.scannedFiles == t.scannedFiles
    ensures Blames(t, t', StopOf(outcome), |content| > search.limits.fileBytes)
    ensures match outcome
      case None =>
        && t' == t.(scannedBytes := t.scannedBytes + (m - start)) && Going(search, t') && m <= search.limits.fileBytes
        && (if eof then m == |content| else start < m && content[m - 1] == LF)
      case Some(Stopped(reason)) => Bounded(search, t') && (reason == Timeout || reason == ScanBytes)
      case Some(Skipped) => Going(search, t') && SkipTrue(search, t', content)
      case Some(Finished) => false
  {
    t', m, eof, outcome := t, start, false, None;
    var expired: bool := *;
    if expired {
      return t'.(reasons := t'.reasons + {Timeout}), m, eof, Some(Stopped(Timeout));
    }
    m, eof := ReadString(content, start, end);
    t' := t'.(scannedBytes := t'.scannedBytes + (m - start));
    if t'.scannedBytes > search.limits.scanBytes {
      return t'.(reasons := t'.reasons + {ScanBytes}), m, eof, Some(Stopped(ScanBytes));
    }
    if m > search.limits.fileBytes {
      return t'.(reasons := t'.reasons + {FileSize}), m, eof, Some(Skipped);
    }
    if exists k :: start <= k < m && content[k] == 0 {
      outcome := Some(Skipped);
    }
  }

  /** The state of the read loop. */
  ghost predicate Scanning(search: Search, t: Tally, t': Tally, path: string, content: seq<byte>, fileBytes: nat,
                           lineNumber: nat, hits: seq<Hit>)
  {
    && Going(search, t') && t'.scannedBytes == t.scannedBytes + fileBytes && fileBytes <= search.limits.fileBytes
    && Progress(search, path, content, FileLines(content, 0), fileBytes, lineNumber, hits, t.matches, t'.matches)
    && Blames(t, t', None, |content| > search.limits.fileBytes) && t'.scannedFiles == t.scannedFiles
  }

  /** What a scan leaves. */
  ghost predicate Scanned(search: Search, t: Tally, t': Tally, path: string, content: seq<byte>, outcome: Outcome,
                          hits: seq<Hit>)
  {
    var all := FileLines(content, 0);
    && (if outcome.Stopped? then Bounded(search, t') else Going(search, t'))
    && hits <= Hits(search.matcher, all, |all|, 0)
    && (outcome.Finished? ==> hits == Hits(search.matcher, all, |all|, 0))
    && Added(search, path, hits, t.matches, t'.matches)
    && Blames(t, t', StopOf(Some(outcome)), |content| > search.limits.fileBytes)
    && (outcome.Stopped? ==> outcome.reason in {Timeout, ScanBytes, OutputChars, MatchLimit})
    && (outcome == Stopped(OutputChars) ==> Overflows(search, path, Hits(search.matcher, all, |all|, 0), |hits|, t'))
    && (outcome.Skipped? ==> SkipTrue(search, t', content))
    && t'.scannedFiles == t.scannedFiles
  }

  /** One round of the read loop. */
  method ScanNext(search: Search, ghost t: Tally, t1: Tally, path: string, content: seq<byte>, end: nat,
                  fileBytes: nat, lineNumber: nat, ghost sofar: seq<Hit>)
    returns (t': Tally, m: nat, lines: nat, outcome: Option<Outcome>, ghost hits: seq<Hit>)
    requires Going(search, t) && end == ReadEnd(search.limits, t.scannedBytes, |content|) && fileBytes <= end
    requires Scanning(search, t, t1, path, content, fileBytes, lineNumber, sofar)
    ensures outcome.None? ==> fileBytes < m <= end && Scanning(search, t, t', path, content, m, lines, hits)
    ensures outcome.Some? ==> Scanned(search, t, t', path, content, outcome.value, hits)
  {
    var eof;
    lines, hits := lineNumber, sofar;
    t', m, eof, outcome := ReadPiece(search, t1, content, fileBytes, end);
    if outcome.Some? {
      ReadOver(search, t, t1, t', path, content, fileBytes, lineNumber, sofar, outcome.value);
      return;
    }
    t', lines, outcome, hits := SearchNext(search, t, t1, t', path, content, fileBytes, m, eof, lineNumber, sofar);
  }

  /** The piece that was read is searched. */
  method SearchNext(search: Search, ghost t: Tally, ghost t1: Tally, read: Tally, path: string, content: seq<byte>,
                    fileBytes: nat, m: nat, eof: bool, lineNumber: nat, ghost sofar: seq<Hit>)
    returns (t': Tally, lines: nat, outcome: Option<Outcome>, ghost hits: seq<Hit>)
    requires Scanning(search, t, t1, path, content, fileBytes, lineNumber, sofar) && fileBytes <= m <= |content|
    requires read == t1.(scannedBytes := t1.scannedBytes + (m - fileBytes)) && Going(search, read)
    requires m <= search.limits.fileBytes
    requires if eof then m == |content| else fileBytes < m && content[m - 1] == LF
    ensures outcome.None? ==> !eof && Scanning(search, t, t', path, content, m, lines, hits)
    ensures outcome.Some? ==> Scanned(search, t, t', path, content, outcome.value, hits)
  {
    var stop, count;
    t', stop, count, hits :=
      SearchPiece(search, read, path, content, fileBytes, m, eof, lineNumber, FileLines(content, 0), sofar, t.matches);
    lines := lineNumber + count;
    outcome := if stop.Some? then Some(Stopped(stop.value)) else if eof then Some(Finished) else None;
    BlamesOn(t, t1, read, t', stop, |content| > search.limits.fileBytes);
    if eof && stop == None {
      AllLinesRead(search, content, FileLines(content, 0), lines, hits);
    }
    PieceOver(search, t, t', path, content, m, eof, lines, stop, hits);
  }

  lemma BlamesOn(t: Tally, t1: Tally, read: Tally, t': Tally, stop: Option<Reason>, large: bool)
    requires Blames(t, t1, None, large) && read.reasons == t1.reasons && Blames(read, t', stop, false)
    ensures Blames(t, t', stop, large)
  {
  }

  /** A searched piece leaves the loop going, or ends it at a limit or at the end of the file. */
  lemma PieceOver(search: Search, t: Tally, t': Tally, path: string, content: seq<byte>, m: nat, eof: bool,
                  lines: nat, stop: Option<Reason>, hits: seq<Hit>)
    requires var all := FileLines(content, 0);
      && (if stop.Some? then Bounded(search, t') else Going(search, t'))
      && hits <= Hits(search.matcher, all, |all|, 0) && Added(search, path, hits, t.matches, t'.matches)
      && (stop == None ==> Progress(search, path, content, all, m, lines, hits, t.matches, t'.matches))
      && (stop == None && eof ==> hits == Hits(search.matcher, all, |all|, 0))
      && (stop.Some? ==> stop.value == OutputChars || stop.value == MatchLimit)
      && (stop == Some(OutputChars) ==> Overflows(search, path, Hits(search.matcher, all, |all|, 0), |hits|, t'))
    requires Blames(t, t', stop, |content| > search.limits.fileBytes)
    requires t'.scannedFiles == t.scannedFiles && t'.scannedBytes == t.scannedBytes + m && m <= search.limits.fileBytes
    ensures if stop.Some? then Scanned(search, t, t', path, content, Stopped(stop.value), hits)
            else if eof then Scanned(search, t, t', path, content, Finished, hits)
            else Scanning(search, t, t', path, content, m, lines, hits)
  {
  }

  /** A scan that ends while reading keeps the hits it has. */
  lemma ReadOver(search: Search, t: Tally, t1: Tally, t': Tally, path: string, content: seq<byte>, fileBytes: nat,
                 lineNumber: nat, hits: seq<Hit>, outcome: Outcome)
    requires Scanning(search, t, t1, path, content, fileBytes, lineNumber, hits)
    requires t'.matches == t1.matches && t'.scannedFiles == t1.scannedFiles
    requires Blames(t1, t', StopOf(Some(outcome)), |content| > search.limits.fileBytes)
    requires match outcome
      case Stopped(reason) => Bounded(search, t') && (reason == Timeout || reason == ScanBytes)
      case Skipped => Going(search, t') && SkipTrue(search, t', content)
      case Finished => false
    ensures Scanned(search, t, t', path, content, outcome, hits)
  {
    HitsGrow(search.matcher, FileLines(content, 0), lineNumber, |FileLines(content, 0)|, 0);
  }

  /** At the end of the file all its lines have been searched. */
  lemma AllLinesRead(search: Search, content: seq<byte>, all: seq<string>, lines: nat, hits: seq<Hit>)
    requires lines <= |all| && all[lines..] == FileLines(content, |content|)
    requires hits == Hits(search.matcher, all, lines, 0)
    ensures hits == Hits(search.matcher, all, |all|, 0)
  {
    assert |all[lines..]| == 0;
  }

  /** The read loop over one opened file. */
  method ScanFile(search: Search, t: Tally, path: string, content: seq<byte>)
    returns (t': Tally, outcome: Outcome, ghost hits: seq<Hit>)
    requires Going(search, t)
    ensures Scanned(search, t, t', path, content, outcome, hits)
  {
    var end := ReadEnd(search.limits, t.scannedBytes, |content|);
    var fileBytes, lineNumber: nat := 0, 0;
    t', hits := t, [];
    while true
      invariant fileBytes <= end && Scanning(search, t, t', path, content, fileBytes, lineNumber, hits)
      decreases end - fileBytes
    {
      var over;
      t', fileBytes, lineNumber, over, hits := ScanNext(search, t, t', path, content, end, fileBytes, lineNumber, hits);
      if over.Some? {
        return t', over.value, hits;
      }
    }
  }

  // ----- Many files -----

  /** A visited entry; `eligible` stands for the type, exclusion and include checks. */
  datatype File = File(path: string, eligible: bool, size: nat, content: Option<seq<byte>>)

  /** The hits a search owes for a file. */
  function FileHits(search: Search, f: File): seq<Hit> {
    if !f.eligible || f.content == None then []
    else var all := FileLines(f.content.value, 0); Hits(search.matcher, all, |all|, 0)
  }

  /** The file is larger than a search reads, by its entry or by its content. */
  predicate TooLarge(search: Search, f: File) {
    f.eligible && (f.size > search.limits.fileBytes || (f.content.Some? && |f.content.value| > search.limits.fileBytes))
  }

  predicate HasNul(f: File) {
    f.content.Some? && 0 in f.content.value
  }

  /** The visit of entry number `visited` stopped the search for a reason that holds. */
  predicate StopTrue(search: Search, f: File, visited: nat, reason: Reason, hits: seq<Hit>, t: Tally) {
    match reason
    case Timeout => true
    case EntryLimit => visited + 1 > search.limits.maxFiles * 4
    case FileLimit => f.eligible && t.scannedFiles == search.limits.maxFiles
    case ScanBytes => t.scannedBytes > search.limits.scanBytes
    case OutputChars => Overflows(search, f.path, FileHits(search, f), |hits|, t)
    case MatchLimit => |t.matches| == search.limits.maxMatches
    case FileSize => false
    case LineChars => false
  }

  /** What a visit leaves. */
  ghost predicate Visited(search: Search, t: Tally, t': Tally, visited: nat, f: File, outcome: Outcome,
                          hits: seq<Hit>)
  {
    && (if outcome.Stopped? then Bounded(search, t') else Going(search, t'))
    && hits <= FileHits(search, f) && (outcome.Finished? ==> hits == FileHits(search, f))
    && Added(search, f.path, hits, t.matches, t'.matches)
    && Blames(t, t', StopOf(Some(outcome)), TooLarge(search, f))
    && (outcome.Stopped? ==> StopTrue(search, f, visited, outcome.reason, hits, t'))
    && (outcome.Skipped? ==> (TooLarge(search, f) && FileSize in t'.reasons) || HasNul(f))
    && (if outcome.Stopped? then outcome.reason == FileLimit ==> t'.scannedFiles == t.scannedFiles
        else t'.scannedFiles == t.scannedFiles + if f.eligible then 1 else 0)
  }

  method Visit(search: Search, t: Tally, visited: nat, f: File)
    returns (t': Tally, outcome: Outcome, ghost hits: seq<Hit>)
    requires Going(search, t)
    ensures Visited(search, t, t', visited, f, outcome, hits)
  {
    hits := [];
    var expired: bool := *;
    if expired {
      return t.(reasons := t.reasons + {Timeout}), Stopped(Timeout), hits;
    }
    if visited + 1 > search.limits.maxFiles * 4 {
      return t.(reasons := t.reasons + {EntryLimit}), Stopped(EntryLimit), hits;
    }
    if !f.eligible {
      return t, Finished, hits;
    }
    if t.scannedFiles >= search.limits.maxFiles {
      return t.(reasons := t.reasons + {FileLimit}), Stopped(FileLimit), hits;
    }
    t' := t.(scannedFiles := t.scannedFiles + 1);
    if f.size > search.limits.fileBytes {
      return t'.(reasons := t'.reasons + {FileSize}), Skipped, hits;
    }
    if f.content == None {
      return t', Finished, hits;
    }
    t', outcome, hits := ScanFile(search, t', f.path, f.content.value);
  }

  /** None of the first `n` files contains a NUL byte. */
  predicate TextOnly(files: seq<File>, n: nat)
    requires n <= |files|
  {
    forall k :: 0 <= k < n ==> files[k].content.Some? ==> 0 !in files[k].content.value
  }

  function ReportsOf(search: Search, path: string, hits: seq<Hit>): (r: seq<Match>)
    ensures |r| == |hits|
    ensures forall k :: 0 <= k < |hits| ==> r[k] == Report(search, path, hits[k])
  {
    seq(|hits|, k requires 0 <= k < |hits| => Report(search, path, hits[k]))
  }

  /** The reports a search owes, file by file. */
  function Owed(search: Search, files: seq<File>): (r: seq<seq<Match>>)
    ensures |r| == |files|
    ensures forall i :: 0 <= i < |r| ==> r[i] == ReportsOf(search, files[i].path, FileHits(search, files[i]))
  {
    seq(|files|, i requires 0 <= i < |files| => ReportsOf(search, files[i].path, FileHits(search, files[i])))
  }

  /** All that is owed for the first `n` files. */
  function Flat(owed: seq<seq<Match>>, n: nat): seq<Match>
    requires n <= |owed|
  {
    if n == 0 then [] else Flat(owed, n - 1) + owed[n - 1]
  }

  predicate Within(owed: seq<seq<Match>>, counts: seq<nat>) {
    |counts| <= |owed| && forall i :: 0 <= i < |counts| ==> counts[i] <= |owed[i]|
  }

  /** The first `counts[i]` of what is owed for each of the first `n` files. */
  function Shares(owed: seq<seq<Match>>, counts: seq<nat>, n: nat): seq<Match>
    requires Within(owed, counts) && n <= |counts|
  {
    if n == 0 then [] else Shares(owed, counts, n - 1) + owed[n - 1][..counts[n - 1]]
  }

  predicate Shared(owed: seq<seq<Match>>, counts: seq<nat>, matches: seq<Match>) {
    Within(owed, counts) && matches == Shares(owed, counts, |counts|)
  }

  /** The match is owed for some file. */
  ghost predicate Genuine(owed: seq<seq<Match>>, m: Match) {
    exists i, k :: 0 <= i < |owed| && 0 <= k < |owed[i]| && owed[i][k] == m
  }

  lemma {:induction false} SharesPrefix(owed: seq<seq<Match>>, counts: seq<nat>, c: nat, n: nat)
    requires n <= |counts| < |owed| && Within(owed, counts) && c <= |owed[|counts|]|
    ensures Within(owed, counts + [c]) && Shares(owed, counts + [c], n) == Shares(owed, counts, n)
  {
    if n > 0 {
      SharesPrefix(owed, counts, c, n - 1);
    }
  }

  lemma SharesNext(owed: seq<seq<Match>>, counts: seq<nat>, c: nat, before: seq<Match>, after: seq<Match>)
    requires Shared(owed, counts, before) && |counts| < |owed| && c <= |owed[|counts|]|
    requires after == before + owed[|counts|][..c]
    ensures Shared(owed, counts + [c], after)
  {
    SharesPrefix(owed, counts, c, |counts|);
  }

  /** What a visit added is the first part of what the file is owed. */
  lemma AddedIsShare(search: Search, f: File, hits: seq<Hit>, before: seq<Match>, after: seq<Match>)
    requires hits <= FileHits(search, f) && Added(search, f.path, hits, before, after)
    ensures |hits| <= |ReportsOf(search, f.path, FileHits(search, f))|
    ensures after == before + ReportsOf(search, f.path, FileHits(search, f))[..|hits|]
  {
  }

  lemma {:induction false} SharesGenuine(owed: seq<seq<Match>>, counts: seq<nat>, n: nat, j: nat)
    requires Within(owed, counts) && n <= |counts| && j < |Shares(owed, counts, n)|
    ensures Genuine(owed, Shares(owed, counts, n)[j])
  {
    var before := Shares(owed, counts, n - 1);
    if j < |before| {
      SharesGenuine(owed, counts, n - 1, j);
    } else {
      var i, k := n - 1, j - |before|;
      assert Shares(owed, counts, n)[j] == owed[i][..counts[i]][k] == owed[i][k];
    }
  }

  /** Every hit of the file was reported, save for files that are too large or hold a NUL byte. */
  predicate Covered(search: Search, f: File, count: nat) {
    count == |FileHits(search, f)| || HasNul(f) || TooLarge(search, f)
  }

  function EligibleIn(files: seq<File>, n: nat): nat
    requires n <= |files|
  {
    if n == 0 then 0 else EligibleIn(files, n - 1) + if files[n - 1].eligible then 1 else 0
  }

  /** The first files are done with, and one too large to search is reported. */
  ghost predicate Searched(search: Search, files: seq<File>, counts: seq<nat>, reasons: set<Reason>) {
    && |counts| <= |files|
    && (forall i :: 0 <= i < |counts| ==> Covered(search, files[i], counts[i]))
    && (forall i :: 0 <= i < |counts| && TooLarge(search, files[i]) && FileSize !in reasons ==>
          HasNul(files[i]) || counts[i] == |FileHits(search, files[i])|)
  }

  /** A file among the first `n` is too large. */
  ghost predicate SomeTooLarge(search: Search, files: seq<File>, n: nat) {
    exists i :: 0 <= i < n <= |files| && TooLarge(search, files[i])
  }

  /** What is known after some files, all of them done with. */
  ghost predicate Reached(search: Search, files: seq<File>, counts: seq<nat>, t: Tally) {
    && Shared(Owed(search, files), counts, t.matches)
    && Searched(search, files, counts, t.reasons)
    && (FileSize in t.reasons ==> SomeTooLarge(search, files, |counts|))
    && t.scannedFiles == EligibleIn(files, |counts|)
  }

  /** The last file reached stopped the search, for a reason that holds. */
  ghost predicate WhyStopped(search: Search, files: seq<File>, counts: seq<nat>, t: Tally, reason: Reason) {
    0 < |counts| <= |files| &&
    match reason
    case Timeout => true
    case EntryLimit => |counts| > search.limits.maxFiles * 4
    case FileLimit => t.scannedFiles == search.limits.maxFiles < EligibleIn(files, |counts|)
    case ScanBytes => t.scannedBytes > search.limits.scanBytes
    case OutputChars =>
      var i := |counts| - 1;
      Overflows(search, files[i].path, FileHits(search, files[i]), counts[i], t)
    case MatchLimit => |t.matches| == search.limits.maxMatches
    case FileSize => false
    case LineChars => false
  }

  /** What is known when the visit of the last file reached stopped the search. */
  ghost predicate Halted(search: Search, files: seq<File>, counts: seq<nat>, t: Tally, reason: Reason) {
    && Shared(Owed(search, files), counts, t.matches)
    && reason in t.reasons && t.reasons <= {reason, FileSize, LineChars}
    && (FileSize in t.reasons ==> SomeTooLarge(search, files, |counts|))
    && WhyStopped(search, files, counts, t, reason)
  }

  lemma SharedNext(search: Search, files: seq<File>, counts: seq<nat>, t: Tally, t': Tally, hits: seq<Hit>)
    requires Shared(Owed(search, files), counts, t.matches) && |counts| < |files|
    requires hits <= FileHits(search, files[|counts|])
    requires Added(search, files[|counts|].path, hits, t.matches, t'.matches)
    ensures Shared(Owed(search, files), counts + [|hits|], t'.matches)
  {
    AddedIsShare(search, files[|counts|], hits, t.matches, t'.matches);
    SharesNext(Owed(search, files), counts, |hits|, t.matches, t'.matches);
  }

  lemma LargeNext(search: Search, files: seq<File>, n: nat, t: Tally, t': Tally, stop: Option<Reason>)
    requires n < |files| && (FileSize in t.reasons ==> SomeTooLarge(search, files, n))
    requires Blames(t, t', stop, TooLarge(search, files[n]))
    ensures FileSize in t'.reasons ==> SomeTooLarge(search, files, n + 1)
  {
    if FileSize in t'.reasons {
      if FileSize in t.reasons {
        var i :| 0 <= i < n && TooLarge(search, files[i]);
      } else {
        assert TooLarge(search, files[n]);
      }
    }
  }

  lemma SearchedNext(search: Search, files: seq<File>, counts: seq<nat>, t: Tally, t': Tally, count: nat)
    requires Searched(search, files, counts, t.reasons) && |counts| < |files| && t.reasons <= t'.reasons
    requires var f := files[|counts|];
      count == |FileHits(search, f)| || (TooLarge(search, f) && FileSize in t'.reasons) || HasNul(f)
    ensures Searched(search, files, counts + [count], t'.reasons)
  {
    var counts' := counts + [count];
    forall i | 0 <= i < |counts'|
      ensures Covered(search, files[i], counts'[i])
      ensures TooLarge(search, files[i]) && FileSize !in t'.reasons ==>
        HasNul(files[i]) || counts'[i] == |FileHits(search, files[i])|
    {
      if i < |counts| {
        assert counts'[i] == counts[i] && Covered(search, files[i], counts[i]);
      }
    }
  }

  lemma ReachedNext(search: Search, files: seq<File>, counts: seq<nat>, t: Tally, t': Tally, outcome: Outcome,
                    hits: seq<Hit>)
    requires Reached(search, files, counts, t) && |counts| < |files| && !outcome.Stopped?
    requires Visited(search, t, t', |counts|, files[|counts|], outcome, hits)
    ensures Reached(search, files, counts + [|hits|], t')
  {
    SharedNext(search, files, counts, t, t', hits);
    LargeNext(search, files, |counts|, t, t', None);
    SearchedNext(search, files, counts, t, t', |hits|);
  }

  lemma WhyNext(search: Search, files: seq<File>, counts: seq<nat>, t: Tally, t': Tally, reason: Reason, hits: seq<Hit>)
    requires |counts| < |files| && t.scannedFiles == EligibleIn(files, |counts|)
    requires StopTrue(search, files[|counts|], |counts|, reason, hits, t')
    requires reason == FileLimit ==> t'.scannedFiles == t.scannedFiles
    ensures WhyStopped(search, files, counts + [|hits|], t', reason)
  {
  }

  lemma HaltedNext(search: Search, files: seq<File>, counts: seq<nat>, t: Tally, t': Tally, outcome: Outcome,
                   hits: seq<Hit>)
    requires t.reasons <= {FileSize, LineChars}
    requires Reached(search, files, counts, t) && |counts| < |files| && outcome.Stopped?
    requires Visited(search, t, t', |counts|, files[|counts|], outcome, hits)
    ensures Halted(search, files, counts + [|hits|], t', outcome.reason)
  {
    SharedNext(search, files, counts, t, t', hits);
    LargeNext(search, files, |counts|, t, t', Some(outcome.reason));
    WhyNext(search, files, counts, t, t', outcome.reason, hits);
  }

  /** One file more; `stop` says why the search ends with it. */
  method VisitNext(search: Search, t: Tally, files: seq<File>, visited: nat, ghost counts: seq<nat>)
    returns (t': Tally, stop: Option<Reason>, ghost counts': seq<nat>)
    requires Going(search, t) && visited == |counts| < |files| && Reached(search, files, counts, t)
    ensures |counts'| == visited + 1
    ensures if stop.Some? then Bounded(search, t') && Halted(search, files, counts', t', stop.value)
            else Going(search, t') && Reached(search, files, counts', t')
  {
    var outcome;
    ghost var hits;
    t', outcome, hits := Visit(search, t, visited, files[visited]);
    counts' := counts + [|hits|];
    if outcome.Stopped? {
      stop := Some(outcome.reason);
      HaltedNext(search, files, counts, t, t', outcome, hits);
    } else {
      stop := None;
      ReachedNext(search, files, counts, t, t', outcome, hits);
    }
  }

  /** The loop over all files. */
  method SearchEach(search: Search, files: seq<File>) returns (t: Tally, stop: Option<Reason>, ghost counts: seq<nat>)
    requires Positive(search.limits)
    ensures Bounded(search, t) && |counts| <= |files|
    ensures if stop.Some? then Halted(search, files, counts, t, stop.value)
            else Going(search, t) && Reached(search, files, counts, t) && |counts| == |files|
  {
    t, counts := Tally([], {}, 0, 0, 0), [];
    stop := None;
    var visited := 0;
    while visited < |files|
      invariant visited == |counts| <= |files| && Going(search, t) && Reached(search, files, counts, t) && stop == None
    {
      t, stop, counts := VisitNext(search, t, files, visited, counts);
      if stop.Some? {
        return;
      }
      visited := visited + 1;
    }
  }

  // ----- What a match says, in terms of the files -----

  /** `line[..e]` is the line without its trailing white space. */
  predicate TrimsTo(isSpace: char -> bool, line: string, e: nat) {
    && e <= |line| && (e > 0 ==> !isSpace(line[e - 1]))
    && forall k :: e <= k < |line| ==> isSpace(line[k])
  }

  lemma {:induction false} TrimRightTrims(isSpace: char -> bool, line: string) returns (e: nat)
    ensures TrimsTo(isSpace, line, e) && TrimRight(isSpace, line) == line[..e]
  {
    if line == "" || !isSpace(line[|line| - 1]) {
      e := |line|;
    } else {
      e := TrimRightTrims(isSpace, line[..|line| - 1]);
      assert line[..|line| - 1][..e] == line[..e];
      forall k | e <= k < |line| ensures isSpace(line[k]) {
        assert k < |line| - 1 ==> line[..|line| - 1][k] == line[k];
      }
    }
  }

  /** The match is line `m.number` of the file, which meets the matcher, trimmed and cut where it is too long. */
  ghost predicate Names(search: Search, f: File, m: Match) {
    f.eligible && f.content.Some? && m.path == f.path &&
    var all, most := FileLines(f.content.value, 0), search.limits.lineChars;
    1 <= m.number <= |all| && search.matcher(all[m.number - 1]) &&
    exists e: nat :: TrimsTo(search.isSpace, all[m.number - 1], e)
                && (m.truncated <==> e > most) && m.line == all[m.number - 1][..Min(e, most)]
  }

  lemma ReportNames(search: Search, f: File, h: Hit)
    requires h in FileHits(search, f)
    ensures Names(search, f, Report(search, f.path, h)) && Report(search, f.path, h).number == h.number
  {
    var all := FileLines(f.content.value, 0);
    HitNamesLine(search.matcher, all, |all|, 0, h);
    var e := TrimRightTrims(search.isSpace, h.line);
    var most := search.limits.lineChars;
    assert |h.line[..e]| == e;
    assert e > most ==> h.line[..e][..most] == h.line[..most];
    assert Report(search, f.path, h).line == all[h.number - 1][..Min(e, most)];
  }

  ghost predicate NamesSome(search: Search, files: seq<File>, m: Match) {
    exists i :: 0 <= i < |files| && Names(search, files[i], m)
  }

  lemma GenuineNames(search: Search, files: seq<File>, m: Match)
    requires Genuine(Owed(search, files), m)
    ensures NamesSome(search, files, m)
  {
    var owed := Owed(search, files);
    var i, k :| 0 <= i < |owed| && 0 <= k < |owed[i]| && owed[i][k] == m;
    ReportNames(search, files[i], FileHits(search, files[i])[k]);
  }

  lemma {:induction false} LineIsHit(matches: string -> bool, lines: seq<string>, n: nat, base: nat, k: nat)
    requires k < n <= |lines| && matches(lines[k])
    ensures Hit(base + k + 1, lines[k]) in Hits(matches, lines, n, base)
  {
    if k < n - 1 {
      LineIsHit(matches, lines, n - 1, base, k);
    }
  }

  /** Line `number` of the file is reported. */
  ghost predicate Found(matches: seq<Match>, path: string, number: nat) {
    exists j :: 0 <= j < |matches| && matches[j].path == path && matches[j].number == number
  }

  lemma {:induction false} ShareReported(owed: seq<seq<Match>>, counts: seq<nat>, n: nat, i: nat, k: nat)
    requires Within(owed, counts) && i < n <= |counts| && k < counts[i]
    ensures owed[i][k] in Shares(owed, counts, n)
  {
    if i < n - 1 {
      ShareReported(owed, counts, n - 1, i, k);
    } else {
      assert owed[i][k] == owed[i][..counts[i]][k];
    }
  }

  /** Every matching line of the file is reported. */
  ghost predicate AllFound(search: Search, f: File, matches: seq<Match>) {
    f.eligible && f.content.Some? ==>
      var all := FileLines(f.content.value, 0);
      forall n :: 1 <= n <= |all| && search.matcher(all[n - 1]) ==> Found(matches, f.path, n)
  }

  lemma LineFound(search: Search, files: seq<File>, counts: seq<nat>, matches: seq<Match>, i: nat, n: nat)
    requires Shared(Owed(search, files), counts, matches) && i < |counts|
    requires files[i].eligible && files[i].content.Some? && counts[i] == |FileHits(search, files[i])|
    requires var all := FileLines(files[i].content.value, 0); 1 <= n <= |all| && search.matcher(all[n - 1])
    ensures Found(matches, files[i].path, n)
  {
    var all, hits := FileLines(files[i].content.value, 0), FileHits(search, files[i]);
    LineIsHit(search.matcher, all, |all|, 0, n - 1);
    var k :| 0 <= k < |hits| && hits[k] == Hit(n, all[n - 1]);
    ReportNames(search, files[i], hits[k]);
    ShareReported(Owed(search, files), counts, |counts|, i, k);
    var j :| 0 <= j < |matches| && matches[j] == Owed(search, files)[i][k];
    assert matches[j].path == files[i].path && matches[j].number == n;
  }

  /**
    Whatever stops the search, the matches are the reports of the first hits of each file
    reached, in order, and each of them shows the line it names. A search that was not
    stopped has found every matching line of every file that is neither too large nor
    binary; a reason is given only if it holds.
   */
  method SearchFiles(search: Search, files: seq<File>)
    returns (t: Tally, ghost stop: Option<Reason>, ghost counts: seq<nat>)
    requires Positive(search.limits)
    ensures Bounded(search, t)
    ensures Shared(Owed(search, files), counts, t.matches)
    ensures forall j :: 0 <= j < |t.matches| ==> NamesSome(search, files, t.matches[j])
    ensures if stop.Some? then Halted(search, files, counts, t, stop.value)
            else t.reasons <= {FileSize, LineChars} && t.scannedFiles == EligibleIn(files, |files|)
    ensures stop.None? ==>
      forall f :: f in files && !HasNul(f) && !TooLarge(search, f) ==> AllFound(search, f, t.matches)
    ensures stop.None? && FileSize in t.reasons ==> SomeTooLarge(search, files, |files|)
    ensures t.reasons == {} && TextOnly(files, |files|) ==> t.matches == Flat(Owed(search, files), |files|)
  {
    var why;
    t, why, counts := SearchEach(search, files);
    stop := why;
    if stop.None? {
      CoveredFound(search, files, counts, t);
      if t.reasons == {} && TextOnly(files, |files|) {
        CompleteIsAll(Owed(search, files), counts, |files|);
      }
    }
    forall j: nat | j < |t.matches| ensures NamesSome(search, files, t.matches[j]) {
      SharesGenuine(Owed(search, files), counts, |counts|, j);
      GenuineNames(search, files, t.matches[j]);
    }
  }

  lemma CoveredFound(search: Search, files: seq<File>, counts: seq<nat>, t: Tally)
    requires Reached(search, files, counts, t) && |counts| == |files|
    ensures forall f :: f in files && !HasNul(f) && !TooLarge(search, f) ==> AllFound(search, f, t.matches)
  {
    forall f | f in files && !HasNul(f) && !TooLarge(search, f) ensures AllFound(search, f, t.matches) {
      var i :| 0 <= i < |files| && files[i] == f;
      assert Covered(search, files[i], counts[i]);
      if f.eligible && f.content.Some? {
        var all := FileLines(f.content.value, 0);
        forall n | 1 <= n <= |all| && search.matcher(all[n - 1]) ensures Found(t.matches, f.path, n) {
          LineFound(search, files, counts, t.matches, i, n);
        }
      }
    }
  }

  /** Every hit of every file reached was reported. */
  predicate Complete(owed: seq<seq<Match>>, counts: seq<nat>) {
    |counts| <= |owed| && forall i :: 0 <= i < |counts| ==> counts[i] == |owed[i]|
  }

  lemma {:induction false} CompleteIsAll(owed: seq<seq<Match>>, counts: seq<nat>, n: nat)
    requires Complete(owed, counts) && n <= |counts|
    ensures Shares(owed, counts, n) == Flat(owed, n)
  {
    if n > 0 {
      CompleteIsAll(owed, counts, n - 1);
      assert owed[n - 1][..|owed[n - 1]|] == owed[n - 1];
    }
  }

  // ----- The pager shows what the search found -----

  lemma JoinBegins(lines: seq<string>)
    requires lines != []
    ensures lines[0] <= Join(lines) && (|lines| > 1 ==> |lines[0]| < |Join(lines)|)
  {
  }

  /** A page begins with its first line, cut if it does not fit. */
  lemma PageBegins(all: seq<string>, offset: nat, limit: nat, maxChars: nat, page: Page)
    requires 1 <= offset <= |all| && limit >= 1 && IsPage(all, offset, limit, maxChars, page)
    ensures page.lines != []
    ensures page.lines[0] == if |all[offset - 1]| <= maxChars then all[offset - 1] else all[offset - 1][..maxChars]
    ensures |all[offset - 1]| > maxChars ==> page.truncated
  {
    var selected, line := Selected(all, offset, limit), all[offset - 1];
    assert selected != [] && selected[0] == line;
    JoinBegins(selected);
    if page.truncated {
      JoinBegins(page.lines);
      var joined := Join(selected);
      if |page.lines| == 1 {
        assert Join(page.lines) == page.lines[0];
        assert page.lines[0] == joined[..maxChars];
        if |line| > maxChars {
          assert joined[..|line|][..maxChars] == joined[..maxChars];
        }
      } else {
        assert page.lines[0] == page.lines[..|page.lines| - 1][0] == selected[..|page.lines| - 1][0];
      }
    }
  }

  /** In valid text, the pager asked for the line of a match begins with that line, whatever its limits. */
  lemma PagerShowsMatch(search: Search, f: File, m: Match, limit: nat, maxChars: nat, page: Page)
    requires Names(search, f, m) && ValidString(f.content.value) && limit >= 1
    requires IsPage(SplitLines(Runes(f.content.value, 0, |f.content.value|)), m.number, limit, maxChars, page)
    ensures var line := FileLines(f.content.value, 0)[m.number - 1];
      && page.lines != []
      && page.lines[0] == (if |line| <= maxChars then line else line[..maxChars])
      && (limit == 1 && |line| <= maxChars ==> page.lines == [line] && !page.truncated)
      && m.line <= line && search.matcher(line)
  {
    var content := f.content.value;
    var all := FileLines(content, 0);
    ValidReadsAlike(content, 0, |content|);
    PageBegins(all, m.number, limit, maxChars, page);
    if limit == 1 {
      assert Selected(all, m.number, 1) == [all[m.number - 1]];
    }
  }
}
