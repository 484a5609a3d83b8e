/**
  The streaming text pager (reuleauxcoder-agent/internal/workspace/text_page.go:13-104).
  The file is given by its decoded characters.
 */
module TextPage {
  import opened Prelude
  import opened Lines

  datatype Page = Page(lines: seq<string>, total: Option<nat>, hasMore: bool, truncated: bool)

  datatype Result = Ok(page: Page) | InvalidLimits

  /** The selected lines: `limit` of them from the `offset`-th on. */
  function Selected(all: seq<string>, offset: nat, limit: nat): seq<string>
    requires offset >= 1
  {
    if |all| < offset then []
    else if |all| - (offset - 1) <= limit then all[offset - 1..]
    else all[offset - 1..offset - 1 + limit]
  }

  /** `lines` are the first selected lines, of which the last may be cut short. */
  predicate Beginning(lines: seq<string>, selected: seq<string>) {
    var n := |lines|;
    0 < n <= |selected| && lines[..n - 1] == selected[..n - 1] && lines[n - 1] <= selected[n - 1]
  }

  /** What a page of a text with lines `all` must be. */
  predicate IsPage(all: seq<string>, offset: nat, limit: nat, maxChars: nat, p: Page)
    requires offset >= 1
  {
    var selected := Selected(all, offset, limit);
    var joined := Join(selected);
    && (p.truncated <==> |joined| > maxChars)
    && (p.truncated ==>
          Beginning(p.lines, selected) && Join(p.lines) == joined[..maxChars]
          && p.total == None && p.hasMore)
    && (!p.truncated ==>
          && p.lines == selected
          && (p.hasMore <==> |all| > offset - 1 + limit)
          && p.total == if p.hasMore then None else Some(|all|))
  }

  /** Characters the page takes so far: finished lines, and the current one once it has begun. */
  function Kept(lines: seq<string>, current: string): nat {
    if current == "" then |Join(lines)| else |Join(lines + [current])|
  }

  /** The newline that a further line costs. */
  function Separator(lines: seq<string>, current: string): nat {
    if current == "" && lines != [] then 1 else 0
  }

  lemma KeptGrows(lines: seq<string>, current: string, c: char)
    ensures Kept(lines, current + [c]) == Kept(lines, current) + Separator(lines, current) + 1
  {
    KeptEnds(lines, current);
    KeptEnds(lines, current + [c]);
    JoinLast(lines, current);
    JoinLast(lines, current + [c]);
  }

  lemma KeptEnds(lines: seq<string>, current: string)
    ensures |Join(lines + [current])| == Kept(lines, current) + Separator(lines, current)
  {
    JoinLast(lines, current);
  }

  lemma JoinLast(lines: seq<string>, last: string)
    ensures |Join(lines + [last])| == |Join(lines)| + |last| + (if lines == [] then 0 else 1)
  {
    if lines == [] {
      assert lines + [last] == [last];
    } else {
      JoinAppend(lines, [last]);
    }
  }

  /** The selection consists of the selected finished lines and some lines from the current one on. */
  lemma SelectedSplit(done: seq<string>, rest: seq<string>, offset: nat, limit: nat) returns (more: seq<string>)
    requires offset >= 1 && rest != []
    requires offset - 1 <= |done| < offset - 1 + limit
    ensures Selected(done + rest, offset, limit) == done[offset - 1..] + ([rest[0]] + more)
  {
    var room := offset - 1 + limit - |done|;
    more := if |rest| <= room then rest[1..] else rest[1..room];
  }

  /** The page is full within the current line: its next character does not fit. */
  lemma LineCut(all: seq<string>, done: seq<string>, rest: seq<string>, offset: nat, limit: nat,
                maxChars: nat, lines: seq<string>, cut: string)
    requires offset >= 1 && offset - 1 <= |done| < offset - 1 + limit
    requires all == done + rest && rest != [] && cut < rest[0] && lines == done[offset - 1..]
    requires |Join(lines + [cut])| == maxChars
    ensures IsPage(all, offset, limit, maxChars, Page(lines + [cut], None, true, true))
  {
    var more := SelectedSplit(done, rest, offset, limit);
    var selected := lines + ([rest[0]] + more);
    assert selected == lines + [rest[0]] + more;
    JoinPrefix(lines, cut, rest[0], more);
    assert (lines + [cut])[..|lines|] == selected[..|lines|];
  }

  /** The page is full before the current line: the newline does not fit. */
  lemma NewlineCut(all: seq<string>, done: seq<string>, rest: seq<string>, offset: nat, limit: nat,
                   maxChars: nat, lines: seq<string>)
    requires offset >= 1 && offset - 1 <= |done| < offset - 1 + limit
    requires all == done + rest && rest != [] && lines == done[offset - 1..] && lines != []
    requires |Join(lines)| == maxChars
    ensures IsPage(all, offset, limit, maxChars, Page(lines, None, true, true))
  {
    var more := SelectedSplit(done, rest, offset, limit);
    var selected := lines + ([rest[0]] + more);
    JoinAppend(lines, [rest[0]] + more);
    assert lines[..|lines| - 1] == selected[..|lines| - 1];
  }

  lemma NextLine(done: seq<string>, rest: seq<string>)
    requires rest != []
    ensures (done + [rest[0]]) + rest[1..] == done + rest
  {
  }

  /**
    Reading up to position `i`: `rest` are the lines from the current one on, which
    starts at `start`; a line feed right after a carriage return still belongs to
    the line before.
   */
  predicate At(text: string, start: nat, rest: seq<string>, i: nat, skipLF: bool) {
    if skipLF && i < |text| && text[i] == '\n' then start == i + 1 && rest == LinesFrom(text, start, start)
    else start <= i <= |text| && rest == LinesFrom(text, start, i)
  }

  /** Character `i` continues the current line. */
  lemma LineGoesOn(text: string, start: nat, rest: seq<string>, i: nat, skipLF: bool)
    requires At(text, start, rest, i, skipLF) && i < |text| && !IsBreak(text[i])
    ensures At(text, start, rest, i + 1, false) && start <= i
    ensures text[start..i] + [text[i]] == text[start..i + 1]
    ensures rest != [] && text[start..i + 1] <= rest[0]
  {
    FirstLine(text, start, i + 1);
  }

  /** Character `i` ends the current line. */
  lemma LineEnds(text: string, start: nat, rest: seq<string>, i: nat, skipLF: bool)
    requires At(text, start, rest, i, skipLF) && i < |text| && IsBreak(text[i])
    requires !(skipLF && text[i] == '\n')
    ensures start <= i && rest != [] && rest[0] == text[start..i]
    ensures At(text, AfterBreak(text, i), rest[1..], i + 1, text[i] == '\r')
  {
  }

  /** The loop keeps exactly what the page shows of the lines read so far. */
  predicate Shown(done: seq<string>, offset: nat, limit: nat, maxChars: nat, begun: bool,
                  lines: seq<string>, current: string, kept: nat)
    requires offset >= 1
  {
    && lines == (if |done| < offset then [] else done[offset - 1..])
    && kept == Kept(lines, current) <= maxChars
    && (|done| < offset - 1 + limit || (|done| == offset - 1 + limit && !begun))
  }

  lemma ShownGrows(done: seq<string>, offset: nat, limit: nat, maxChars: nat, begun: bool,
                   lines: seq<string>, current: string, kept: nat, c: char)
    requires offset >= 1 && Shown(done, offset, limit, maxChars, begun, lines, current, kept)
    requires |done| < offset - 1 + limit && kept + Separator(lines, current) < maxChars
    ensures Shown(done, offset, limit, maxChars, true, lines, current + [c],
                  kept + Separator(lines, current) + 1)
  {
    KeptGrows(lines, current, c);
  }

  lemma ShownLine(done: seq<string>, offset: nat, limit: nat, maxChars: nat, begun: bool,
                  lines: seq<string>, current: string, kept: nat, whole: string)
    requires offset >= 1 && Shown(done, offset, limit, maxChars, begun, lines, current, kept)
    requires |done| < offset - 1 + limit && kept + Separator(lines, current) <= maxChars
    requires current == if |done| + 1 >= offset then whole else ""
    ensures if |done| + 1 >= offset
            then Shown(done + [whole], offset, limit, maxChars, false, lines + [current], "",
                       kept + Separator(lines, current))
            else Shown(done + [whole], offset, limit, maxChars, false, lines, current, kept)
  {
    KeptEnds(lines, current);
  }

  /** The page ends because the next line is outside the selection. */
  lemma PageEnds(all: seq<string>, done: seq<string>, rest: seq<string>, offset: nat, limit: nat,
                 maxChars: nat, lines: seq<string>, kept: nat)
    requires offset >= 1 && Shown(done, offset, limit, maxChars, false, lines, "", kept)
    requires all == done + rest && rest != [] && |done| == offset - 1 + limit
    ensures IsPage(all, offset, limit, maxChars, Page(lines, None, true, false))
  {
    assert lines == Selected(all, offset, limit);
  }

  /** The page ends because the text ends, after an unfinished line or without one. */
  lemma TextEnds(all: seq<string>, done: seq<string>, rest: seq<string>, offset: nat, limit: nat,
                 maxChars: nat, lines: seq<string>, current: string, kept: nat)
    requires offset >= 1 && Shown(done, offset, limit, maxChars, rest != [], lines, current, kept)
    requires all == done + rest && |rest| <= 1
    requires rest != [] && |done| + 1 >= offset ==> rest[0] == current != ""
    requires rest == [] || |done| + 1 < offset ==> current == ""
    ensures IsPage(all, offset, limit, maxChars,
              Page(if rest != [] && |done| + 1 >= offset then lines + [current] else lines,
                   Some(|all|), false, false))
  {
    var shown := if rest != [] && |done| + 1 >= offset then lines + [current] else lines;
    assert shown == Selected(all, offset, limit);
  }

  method ReadTextPage(text: string, offset: int, limit: int, maxChars: int) returns (r: Result)
    ensures r.InvalidLimits? <==> offset < 1 || limit < 1 || maxChars < 1
    ensures r.Ok? ==> IsPage(SplitLines(text), offset, limit, maxChars, r.page)
  {
    if offset < 1 || limit < 1 || maxChars < 1 {
      return InvalidLimits;
    }
    var page := ReadRunes(text, offset, limit, maxChars);
    return Ok(page);
  }

  /** Room for the newline before a line, and then for its next character. */
  datatype Room = Fits | NoNewline | NoCharacter

  /** What the page takes of a character of a selected line; `ended` if it ends the line. */
  method Take(lines: seq<string>, current: string, kept: nat, started: bool, ended: bool, c: char, maxChars: nat)
    returns (room: Room, current': string, kept': nat)
    requires kept <= maxChars && (started || current == "") && (current == "" && lines != [] ==> !started)
    ensures var k := kept + Separator(lines, current);
      match room
      case NoNewline => k > maxChars && !started && lines != []
      case NoCharacter => k == maxChars && !ended && current' == current
      case Fits => k <= maxChars && (if ended then current' == current && kept' == k
                                     else k < maxChars && current' == current + [c] && kept' == k + 1)
  {
    current', kept' := current, kept;
    if !started && lines != [] {
      kept' := kept' + 1;
      if kept' > maxChars {
        return NoNewline, current', kept';
      }
    }
    if !ended {
      if kept' >= maxChars {
        return NoCharacter, current', kept';
      }
      current' := current' + [c];
      kept' := kept' + 1;
    }
    room := Fits;
  }

  /** Where the rune loop stands: the finished lines, the lines from the current one on, and where that one starts. */
  datatype Place = Place(done: seq<string>, rest: seq<string>, start: nat)

  /** The loop variables at position `i`. */
  datatype Loop = Loop(
    line: nat, kept: nat, begun: bool, skipLF: bool, started: bool, current: string, lines: seq<string>)

  predicate Reading(text: string, offset: nat, limit: nat, maxChars: nat, i: nat, p: Place, l: Loop)
    requires offset >= 1
  {
    && l.line == |p.done| + 1 && SplitLines(text) == p.done + p.rest
    && At(text, p.start, p.rest, i, l.skipLF)
    && l.begun == (p.start < i)
    && l.started == (l.line >= offset && l.begun)
    && (if l.started then i <= |text| && l.current == text[p.start..i] else l.current == "")
    && Shown(p.done, offset, limit, maxChars, l.begun, l.lines, l.current, l.kept)
  }

  /** A line feed behind a carriage return is passed over. */
  lemma SkipStep(text: string, offset: nat, limit: nat, maxChars: nat, i: nat, p: Place, l: Loop)
    requires offset >= 1 && i < |text| && Reading(text, offset, limit, maxChars, i, p, l)
    requires l.skipLF && text[i] == '\n'
    ensures Reading(text, offset, limit, maxChars, i + 1, p, l.(skipLF := false))
  {
  }

  /** The loop variables after a character that does not end its line. */
  function Further(l: Loop, offset: nat, c: char): Loop {
    if l.line < offset then l.(begun := true, skipLF := false)
    else l.(begun := true, skipLF := false, started := true, current := l.current + [c],
            kept := l.kept + Separator(l.lines, l.current) + 1)
  }

  lemma CharStep(text: string, offset: nat, limit: nat, maxChars: nat, i: nat, p: Place, l: Loop)
    requires offset >= 1 && i < |text| && Reading(text, offset, limit, maxChars, i, p, l) && !IsBreak(text[i])
    requires l.line < offset + limit
    requires l.line >= offset ==> l.kept + Separator(l.lines, l.current) < maxChars
    ensures Reading(text, offset, limit, maxChars, i + 1, p, Further(l, offset, text[i]))
  {
    LineGoesOn(text, p.start, p.rest, i, l.skipLF);
    if l.line >= offset {
      ShownGrows(p.done, offset, limit, maxChars, l.begun, l.lines, l.current, l.kept, text[i]);
    }
  }

  /** The loop variables after the end of a line. */
  function Fresh(l: Loop, offset: nat, c: char): Loop {
    if l.line < offset then Loop(l.line + 1, l.kept, false, c == '\r', false, l.current, l.lines)
    else Loop(l.line + 1, l.kept + Separator(l.lines, l.current), false, c == '\r', false, "", l.lines + [l.current])
  }

  lemma LineStep(text: string, offset: nat, limit: nat, maxChars: nat, i: nat, p: Place, l: Loop)
    requires offset >= 1 && i < |text| && Reading(text, offset, limit, maxChars, i, p, l) && IsBreak(text[i])
    requires !(l.skipLF && text[i] == '\n') && l.line < offset + limit
    requires l.line >= offset ==> l.kept + Separator(l.lines, l.current) <= maxChars
    ensures p.rest != []
    ensures Reading(text, offset, limit, maxChars, i + 1,
                    Place(p.done + [p.rest[0]], p.rest[1..], AfterBreak(text, i)), Fresh(l, offset, text[i]))
  {
    LineEnds(text, p.start, p.rest, i, l.skipLF);
    ShownLine(p.done, offset, limit, maxChars, l.begun, l.lines, l.current, l.kept, p.rest[0]);
    NextLine(p.done, p.rest);
  }

  /** The line at position `i` exists and begins with what was read of it. */
  lemma Underway(text: string, offset: nat, limit: nat, maxChars: nat, i: nat, p: Place, l: Loop)
    requires offset >= 1 && i < |text| && Reading(text, offset, limit, maxChars, i, p, l)
    requires !(l.skipLF && text[i] == '\n')
    ensures p.rest != [] && p.start <= i
    ensures !IsBreak(text[i]) && l.line >= offset ==> l.current < p.rest[0]
  {
    if IsBreak(text[i]) {
      LineEnds(text, p.start, p.rest, i, l.skipLF);
    } else {
      LineGoesOn(text, p.start, p.rest, i, l.skipLF);
      assert text[p.start..i] < text[p.start..i + 1];
    }
  }

  /** The page is full. */
  lemma PageFull(text: string, offset: nat, limit: nat, maxChars: nat, i: nat, p: Place, l: Loop)
    requires offset >= 1 && i < |text| && Reading(text, offset, limit, maxChars, i, p, l)
    requires !(l.skipLF && text[i] == '\n') && offset <= l.line < offset + limit
    ensures l.kept + Separator(l.lines, l.current) > maxChars ==>
      IsPage(SplitLines(text), offset, limit, maxChars, Page(l.lines, None, true, true))
    ensures l.kept + Separator(l.lines, l.current) == maxChars && !IsBreak(text[i]) ==>
      IsPage(SplitLines(text), offset, limit, maxChars, Page(l.lines + [l.current], None, true, true))
  {
    Underway(text, offset, limit, maxChars, i, p, l);
    if l.kept + Separator(l.lines, l.current) > maxChars {
      NewlineCut(SplitLines(text), p.done, p.rest, offset, limit, maxChars, l.lines);
    } else if l.kept + Separator(l.lines, l.current) == maxChars && !IsBreak(text[i]) {
      KeptEnds(l.lines, l.current);
      LineCut(SplitLines(text), p.done, p.rest, offset, limit, maxChars, l.lines, l.current);
    }
  }

  /** The next line is outside the selection. */
  lemma PageOver(text: string, offset: nat, limit: nat, maxChars: nat, i: nat, p: Place, l: Loop)
    requires offset >= 1 && limit >= 1 && i < |text| && Reading(text, offset, limit, maxChars, i, p, l)
    requires !(l.skipLF && text[i] == '\n') && l.line >= offset + limit
    ensures IsPage(SplitLines(text), offset, limit, maxChars, Page(l.lines, None, true, false))
  {
    Underway(text, offset, limit, maxChars, i, p, l);
    PageEnds(SplitLines(text), p.done, p.rest, offset, limit, maxChars, l.lines, l.kept);
  }

  lemma AtEnd(text: string, start: nat, rest: seq<string>, skipLF: bool)
    requires At(text, start, rest, |text|, skipLF)
    ensures start <= |text| && rest == if start < |text| then [text[start..|text|]] else []
  {
  }

  lemma TextOver(text: string, offset: nat, limit: nat, maxChars: nat, p: Place, l: Loop)
    requires offset >= 1 && Reading(text, offset, limit, maxChars, |text|, p, l)
    ensures IsPage(SplitLines(text), offset, limit, maxChars,
              Page(if l.begun && l.line >= offset then l.lines + [l.current] else l.lines,
                   Some(if l.begun then l.line else l.line - 1), false, false))
  {
    var all := SplitLines(text);
    var shown := if l.begun && l.line >= offset then l.lines + [l.current] else l.lines;
    AtEnd(text, p.start, p.rest, l.skipLF);
    assert l.begun == (p.rest != []) && |all| == if l.begun then l.line else l.line - 1;
    assert IsPage(all, offset, limit, maxChars, Page(shown, Some(|all|), false, false)) by {
      assert p.rest != [] && l.line >= offset ==> p.rest[0] == l.current;
      TextEnds(all, p.done, p.rest, offset, limit, maxChars, l.lines, l.current, l.kept);
    }
  }

  /** A character that does not end its line is taken, unless the page is full. */
  method AddCharacter(text: string, offset: nat, limit: nat, maxChars: nat, i: nat, l: Loop, ghost p: Place)
    returns (l': Loop, page: Option<Page>)
    requires offset >= 1 && i < |text| && Reading(text, offset, limit, maxChars, i, p, l)
    requires !IsBreak(text[i]) && l.line < offset + limit
    ensures page.Some? ==> IsPage(SplitLines(text), offset, limit, maxChars, page.value)
    ensures page.None? ==> Reading(text, offset, limit, maxChars, i + 1, p, l')
  {
    l' := l.(begun := true, skipLF := false);
    if l.line >= offset {
      PageFull(text, offset, limit, maxChars, i, p, l);
      var room, current, kept := Take(l.lines, l.current, l.kept, l.started, false, text[i], maxChars);
      if room.NoNewline? {
        return l', Some(Page(l.lines, None, true, true));
      }
      if room.NoCharacter? {
        return l', Some(Page(l.lines + [current], None, true, true));
      }
      l' := l'.(started := true, current := current, kept := kept);
    }
    CharStep(text, offset, limit, maxChars, i, p, l);
    page := None;
  }

  /** A line ends, unless the page has no room for the newline before it. */
  method EndLine(text: string, offset: nat, limit: nat, maxChars: nat, i: nat, l: Loop, ghost p: Place)
    returns (l': Loop, page: Option<Page>, ghost p': Place)
    requires offset >= 1 && i < |text| && Reading(text, offset, limit, maxChars, i, p, l)
    requires IsBreak(text[i]) && !(l.skipLF && text[i] == '\n') && l.line < offset + limit
    ensures page.Some? ==> IsPage(SplitLines(text), offset, limit, maxChars, page.value)
    ensures page.None? ==> Reading(text, offset, limit, maxChars, i + 1, p', l')
  {
    l', p' := l, p;
    if l.line >= offset {
      PageFull(text, offset, limit, maxChars, i, p, l);
      var room, current, kept := Take(l.lines, l.current, l.kept, l.started, true, text[i], maxChars);
      if room.NoNewline? {
        return l', Some(Page(l.lines, None, true, true)), p';
      }
      l' := l'.(kept := kept, lines := l.lines + [current], current := "");
    }
    LineStep(text, offset, limit, maxChars, i, p, l);
    l' := l'.(line := l.line + 1, begun := false, started := false, skipLF := text[i] == '\r');
    p' := Place(p.done + [p.rest[0]], p.rest[1..], AfterBreak(text, i));
    page := None;
  }

  /** One rune; a page if it is complete. */
  method ReadRune(text: string, offset: nat, limit: nat, maxChars: nat, i: nat, l: Loop, ghost p: Place)
    returns (l': Loop, page: Option<Page>, ghost p': Place)
    requires offset >= 1 && limit >= 1 && i < |text| && Reading(text, offset, limit, maxChars, i, p, l)
    ensures page.Some? ==> IsPage(SplitLines(text), offset, limit, maxChars, page.value)
    ensures page.None? ==> Reading(text, offset, limit, maxChars, i + 1, p', l')
  {
    p' := p;
    if l.skipLF && text[i] == '\n' {
      SkipStep(text, offset, limit, maxChars, i, p, l);
      return l.(skipLF := false), None, p';
    }
    if l.line >= offset && l.line - offset >= limit {
      PageOver(text, offset, limit, maxChars, i, p, l);
      return l, Some(Page(l.lines, None, true, false)), p';
    }
    if IsBreak(text[i]) {
      l', page, p' := EndLine(text, offset, limit, maxChars, i, l, p);
    } else {
      l', page := AddCharacter(text, offset, limit, maxChars, i, l, p);
    }
  }

  /** The rune loop. */
  method ReadRunes(text: string, offset: nat, limit: nat, maxChars: nat) returns (page: Page)
    requires offset >= 1 && limit >= 1
    ensures IsPage(SplitLines(text), offset, limit, maxChars, page)
  {
    var l := Loop(1, 0, false, false, false, "", []);
    ghost var p := Place([], SplitLines(text), 0);
    for i := 0 to |text|
      invariant Reading(text, offset, limit, maxChars, i, p, l)
    {
      var full;
      l, full, p := ReadRune(text, offset, limit, maxChars, i, l, p);
      if full.Some? {
        return full.value;
      }
    }
    TextOver(text, offset, limit, maxChars, p, l);
    var total, lines := l.line - 1, l.lines;
    if l.begun {
      total := total + 1;
      if l.line >= offset {
        lines := lines + [l.current];
      }
    }
    return Page(lines, Some(total), false, false);
  }

  /**
    A page that is not cut holds the lines numbered `offset` to `offset + limit - 1`, as far
    as there are that many, and says so truthfully.
   */
  lemma PageIsWindow(all: seq<string>, offset: nat, limit: nat, maxChars: nat, p: Page)
    requires offset >= 1 && IsPage(all, offset, limit, maxChars, p) && !p.truncated
    ensures |p.lines| == (if |all| < offset then 0
                          else if |all| - offset + 1 < limit then |all| - offset + 1 else limit)
    ensures forall k :: 0 <= k < |p.lines| ==> p.lines[k] == all[offset - 1 + k]
    ensures !p.hasMore ==> p.total == Some(|all|) && offset - 1 + |p.lines| >= |all|
    ensures p.hasMore ==> |p.lines| == limit && offset - 1 + limit < |all|
  {
  }

  /** Pages read one after the other. */
  ghost predicate Chain(all: seq<string>, offset: nat, limit: nat, maxChars: nat, pages: seq<Page>)
    requires offset >= 1
    decreases |pages|
  {
    pages != [] && IsPage(all, offset, limit, maxChars, pages[0]) && !pages[0].truncated &&
    if |pages| == 1 then !pages[0].hasMore
    else pages[0].hasMore && Chain(all, offset + limit, limit, maxChars, pages[1..])
  }

  function LinesOf(pages: seq<Page>): seq<string> {
    if pages == [] then [] else pages[0].lines + LinesOf(pages[1..])
  }

  /** The lines from `offset` on. */
  function LinesFromNumber(all: seq<string>, offset: nat): seq<string>
    requires offset >= 1
  {
    if |all| < offset then [] else all[offset - 1..]
  }

  /** A page and what comes after it. */
  lemma PageThenRest(all: seq<string>, offset: nat, limit: nat, maxChars: nat, p: Page)
    requires offset >= 1 && limit >= 1 && IsPage(all, offset, limit, maxChars, p) && !p.truncated
    ensures if p.hasMore then p.lines + LinesFromNumber(all, offset + limit) == LinesFromNumber(all, offset)
            else p.lines == LinesFromNumber(all, offset)
  {
  }

  /** Each page holds the lines between its own first one and that of the page after it. */
  ghost predicate Tiled(all: seq<string>, offset: nat, limit: nat, pages: seq<Page>)
    requires offset >= 1
    decreases |pages|
  {
    pages != [] &&
    if |pages| == 1 then pages[0].lines == LinesFromNumber(all, offset)
    else
      && pages[0].lines + LinesFromNumber(all, offset + limit) == LinesFromNumber(all, offset)
      && Tiled(all, offset + limit, limit, pages[1..])
  }

  lemma {:induction false} ChainTiles(all: seq<string>, offset: nat, limit: nat, maxChars: nat, pages: seq<Page>)
    requires offset >= 1 && limit >= 1 && Chain(all, offset, limit, maxChars, pages)
    ensures Tiled(all, offset, limit, pages)
    decreases |pages|
  {
    PageThenRest(all, offset, limit, maxChars, pages[0]);
    if |pages| > 1 {
      ChainTiles(all, offset + limit, limit, maxChars, pages[1..]);
    }
  }

  lemma {:induction false} TilesJoin(all: seq<string>, offset: nat, limit: nat, pages: seq<Page>)
    requires offset >= 1 && Tiled(all, offset, limit, pages)
    ensures LinesOf(pages) == LinesFromNumber(all, offset)
    decreases |pages|
  {
    if |pages| == 1 {
      assert LinesOf(pages[1..]) == [];
      assert LinesOf(pages) == pages[0].lines + [];
    } else {
      TilesJoin(all, offset + limit, limit, pages[1..]);
    }
  }

  /** A reader who asks for the next page while there is more has read every line once, in order. */
  lemma ChainReadsAll(all: seq<string>, offset: nat, limit: nat, maxChars: nat, pages: seq<Page>)
    requires offset >= 1 && limit >= 1 && Chain(all, offset, limit, maxChars, pages)
    ensures LinesOf(pages) == if |all| < offset then [] else all[offset - 1..]
  {
    ChainTiles(all, offset, limit, maxChars, pages);
    TilesJoin(all, offset, limit, pages);
  }
}
