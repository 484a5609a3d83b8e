/**
  Line splitting shared by the pager and the text search
  (reuleauxcoder-agent/internal/workspace/search.go:187-210): the line breaks of
  Python's `str.splitlines`, over decoded characters.
 */
module Lines {

  predicate IsBreak(c: char) {
    || c == '\n' || c == '\r' || c == '\U{000B}' || c == '\U{000C}'
    || c == '\U{001C}' || c == '\U{001D}' || c == '\U{001E}'
    || c == '\U{0085}' || c == '\U{2028}' || c == '\U{2029}'
  }

  /** Start of the line after the break at `k`; a carriage return takes a following line feed along. */
  function AfterBreak(text: string, k: nat): (j: nat)
    requires k < |text|
    ensures k < j <= |text|
  {
    if text[k] == '\r' && k + 1 < |text| && text[k + 1] == '\n' then k + 2 else k + 1
  }

  /** The lines of `text[start..]`, of which the first has no break before `i`. */
  function LinesFrom(text: string, start: nat, i: nat): seq<string>
    requires start <= i <= |text|
    decreases |text| - i
  {
    if i == |text| then
      if start < i then [text[start..i]] else []
    else if IsBreak(text[i]) then
      var next := AfterBreak(text, i);
      [text[start..i]] + LinesFrom(text, next, next)
    else
      LinesFrom(text, start, i + 1)
  }

  function SplitLines(text: string): seq<string> {
    LinesFrom(text, 0, 0)
  }

  /** The index loop of `pythonSplitlines`. */
  method PythonSplitLines(text: string) returns (lines: seq<string>)
    ensures lines == SplitLines(text)
  {
    lines := [];
    ghost var all := SplitLines(text);
    var start, index := 0, 0;
    while index < |text|
      invariant start <= index <= |text|
      invariant lines + LinesFrom(text, start, index) == all
    {
      if !IsBreak(text[index]) {
        index := index + 1;
        continue;
      }
      var r := text[index];
      lines := lines + [text[start..index]];
      index := index + 1;
      if r == '\r' && index < |text| && text[index] == '\n' {
        index := index + 1;
      }
      start := index;
    }
    if start < |text| {
      assert text[start..] == text[start..index];
      lines := lines + [text[start..]];
    }
  }

  /** A line that has begun is there, and begins with what was read of it. */
  lemma {:induction false} FirstLine(text: string, start: nat, i: nat)
    requires start <= i <= |text| && (start < i || i < |text|)
    ensures LinesFrom(text, start, i) != [] && text[start..i] <= LinesFrom(text, start, i)[0]
    decreases |text| - i
  {
    if i < |text| && !IsBreak(text[i]) {
      FirstLine(text, start, i + 1);
      assert text[start..i] <= text[start..i + 1];
    }
  }

  // ----- Joining -----

  function Join(lines: seq<string>): string {
    if lines == [] then ""
    else if |lines| == 1 then lines[0]
    else lines[0] + "\n" + Join(lines[1..])
  }

  lemma {:induction false} JoinAppend(a: seq<string>, b: seq<string>)
    requires a != [] && b != []
    ensures Join(a + b) == Join(a) + "\n" + Join(b)
  {
    if |a| == 1 {
      assert (a + b)[1..] == b;
    } else {
      assert (a + b)[1..] == a[1..] + b;
      JoinAppend(a[1..], b);
    }
  }

  /** Joined lines start with any shorter version of them: fewer lines, the last one cut. */
  lemma JoinPrefix(front: seq<string>, cut: string, whole: string, rest: seq<string>)
    requires cut <= whole
    ensures Join(front + [cut]) <= Join(front + [whole] + rest)
    ensures |Join(front + [cut])| + (|whole| - |cut|) <= |Join(front + [whole] + rest)|
  {
    var tail := [whole] + rest;
    assert front + [whole] + rest == front + tail;
    if front != [] {
      JoinAppend(front, [cut]);
      JoinAppend(front, tail);
    } else {
      assert front + [cut] == [cut] && front + tail == tail;
    }
    if rest != [] {
      assert tail[1..] == rest;
    }
    assert whole <= Join(tail);
  }

  // ----- Splitting at a line feed -----

  /** The lines of a suffix do not depend on where the suffix sits. */
  lemma {:induction false} ShiftLines(all: string, d: nat, b: string, start: nat, i: nat)
    requires |all| == d + |b| && start <= i <= |b|
    requires forall k :: 0 <= k < |b| ==> b[k] == all[d + k]
    ensures LinesFrom(all, d + start, d + i) == LinesFrom(b, start, i)
    decreases |b| - i
  {
    assert all[d + start..d + i] == b[start..i];
    if i < |b| {
      assert all[d + i] == b[i];
      if IsBreak(b[i]) {
        var next := AfterBreak(b, i);
        assert AfterBreak(all, d + i) == d + next;
        ShiftLines(all, d, b, next, next);
      } else {
        ShiftLines(all, d, b, start, i + 1);
      }
    }
  }

  lemma Reassociate(a: seq<string>, b: seq<string>, c: seq<string>)
    ensures a + (b + c) == (a + b) + c
  {
  }

  /** Text that ends with a line feed splits independently of what follows. */
  lemma {:induction false} SplitFrom(a: string, b: string, start: nat, i: nat)
    requires a != "" && a[|a| - 1] == '\n' && start <= i <= |a| && (i == |a| ==> start == i)
    ensures LinesFrom(a + b, start, i) == LinesFrom(a, start, i) + SplitLines(b)
    decreases |a| - i
  {
    var all := a + b;
    if i == |a| {
      ShiftLines(all, |a|, b, 0, 0);
      assert LinesFrom(a, start, i) == [];
    } else {
      assert all[i] == a[i];
      if IsBreak(a[i]) {
        var next := AfterBreak(a, i);
        assert AfterBreak(all, i) == next;
        assert all[start..i] == a[start..i];
        SplitFrom(a, b, next, next);
        assert LinesFrom(all, start, i) == [a[start..i]] + LinesFrom(all, next, next);
        assert LinesFrom(a, start, i) == [a[start..i]] + LinesFrom(a, next, next);
        Reassociate([a[start..i]], LinesFrom(a, next, next), SplitLines(b));
      } else {
        SplitFrom(a, b, start, i + 1);
      }
    }
  }

  /** Reading a file piece by piece up to line feeds does not change its lines. */
  lemma SplitAtLineFeed(a: string, b: string)
    requires a == "" || a[|a| - 1] == '\n'
    ensures SplitLines(a + b) == SplitLines(a) + SplitLines(b)
  {
    if a == "" {
      assert a + b == b;
    } else {
      SplitFrom(a, b, 0, 0);
    }
  }

  // ----- The lines and their ends give the text back -----

  /** A line end: one break, or a carriage return with its line feed. */
  predicate IsEnd(s: string) {
    (|s| == 1 && IsBreak(s[0])) || s == "\r\n"
  }

  predicate NoBreak(s: string) {
    forall k :: 0 <= k < |s| ==> !IsBreak(s[k])
  }

  /**
    The text is its lines, each without a break and followed by its end; only the last one
    may lack its end, and then it is not empty. No end is cut between its two characters.
   */
  ghost predicate Woven(text: string, lines: seq<string>, ends: seq<string>)
    decreases |lines|
  {
    if lines == [] then text == "" && ends == []
    else
      && |ends| == |lines| && NoBreak(lines[0])
      && if |lines| == 1 && ends[0] == "" then lines[0] != "" && text == lines[0]
         else
           && IsEnd(ends[0]) && lines[0] + ends[0] <= text
           && var rest := text[|lines[0]| + |ends[0]|..];
              && (ends[0] == "\r" ==> !("\n" <= rest))
              && Woven(rest, lines[1..], ends[1..])
  }

  lemma {:induction false} WeaveFrom(text: string, start: nat, i: nat) returns (ends: seq<string>)
    requires start <= i <= |text| && NoBreak(text[start..i])
    ensures Woven(text[start..], LinesFrom(text, start, i), ends)
    decreases |text| - i
  {
    if i == |text| {
      ends := if start < i then [""] else [];
      assert text[start..] == text[start..i];
    } else if IsBreak(text[i]) {
      var next := AfterBreak(text, i);
      assert text[next..next] == "";
      var rest := WeaveFrom(text, next, next);
      ends := [text[i..next]] + rest;
      WovenCons(text, start, i, next, LinesFrom(text, next, next), rest);
    } else {
      assert text[start..i + 1] == text[start..i] + [text[i]];
      ends := WeaveFrom(text, start, i + 1);
    }
  }

  lemma CutLine(text: string, start: nat, i: nat, next: nat)
    requires start <= i <= next <= |text|
    ensures text[start..i] + text[i..next] == text[start..][..next - start]
    ensures text[start..][next - start..] == text[next..]
  {
  }

  lemma WovenCons(text: string, start: nat, i: nat, next: nat, lines: seq<string>, ends: seq<string>)
    requires start <= i < |text| && NoBreak(text[start..i]) && IsBreak(text[i]) && next == AfterBreak(text, i)
    requires Woven(text[next..], lines, ends)
    ensures Woven(text[start..], [text[start..i]] + lines, [text[i..next]] + ends)
  {
    var line, end := text[start..i], text[i..next];
    CutLine(text, start, i, next);
    assert |line| + |end| == next - start;
    assert ([line] + lines)[1..] == lines && ([end] + ends)[1..] == ends;
    assert end == (if next == i + 2 then "\r\n" else [text[i]]);
    assert next < |text| ==> text[next..][0] == text[next];
  }

  /** Splitting loses nothing: the lines with some ends are the text. */
  lemma LinesGiveText(text: string) returns (ends: seq<string>)
    ensures Woven(text, SplitLines(text), ends)
  {
    assert text[0..0] == "" && text[0..] == text;
    ends := WeaveFrom(text, 0, 0);
  }
}
