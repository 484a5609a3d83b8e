/**
  Composition of a terminal row from overlapping writes
  (reuleauxcoder-tui/renderer/compose-row.js:25-52).

  A character takes one or two cells; behind the head of a two-cell character comes an
  empty cell. `width` is the terminal width of a cell's text.
 */
module RowPainter {
  import BoundedCache

  type Widths = string -> nat

  datatype Cell = Cell(value: string, styles: seq<string>)

  datatype Write = Write(x: nat, line: seq<Cell>)

  const SPACE := Cell(" ", [])

  predicate Wide(width: Widths, c: Cell) {
    width(c.value) > 1
  }

  predicate Tail(c: Cell) {
    c.value == ""
  }

  /** Widths as a terminal gives them, and a line of characters of at most two cells. */
  predicate Measured(width: Widths) {
    width("") == 0 && width(" ") == 1
  }

  predicate Drawable(width: Widths, line: seq<Cell>) {
    forall i :: 0 <= i < |line| ==> line[i].value != "" && width(line[i].value) <= 2
  }

  function Cells(width: Widths, c: Cell): (r: seq<Cell>)
    ensures 1 <= |r| <= 2 && r[0] == c
  {
    if Wide(width, c) then [c, Cell("", c.styles)] else [c]
  }

  /** The cells of the first `n` characters. */
  function Layout(width: Widths, line: seq<Cell>, n: nat): seq<Cell>
    requires n <= |line|
  {
    if n == 0 then [] else Layout(width, line, n - 1) + Cells(width, line[n - 1])
  }

  function Drawn(width: Widths, w: Write): seq<Cell> {
    Layout(width, w.line, |w.line|)
  }

  function End(width: Widths, w: Write): nat {
    w.x + |Drawn(width, w)|
  }

  predicate Clipped(width: Widths, w: Write, total: nat) {
    Drawable(width, w.line) && End(width, w) <= total
  }

  /** Heads and tails come in pairs. */
  predicate PairedAt(width: Widths, cells: seq<Cell>, p: nat)
    requires p < |cells|
  {
    && (Wide(width, cells[p]) ==> p + 1 < |cells| && Tail(cells[p + 1]))
    && (Tail(cells[p]) ==> p > 0 && Wide(width, cells[p - 1]))
  }

  predicate Paired(width: Widths, cells: seq<Cell>) {
    forall p :: 0 <= p < |cells| ==> PairedAt(width, cells, p)
  }

  lemma {:induction false} LayoutPaired(width: Widths, line: seq<Cell>, n: nat)
    requires Measured(width) && Drawable(width, line) && n <= |line|
    ensures Paired(width, Layout(width, line, n))
  {
    if n > 0 {
      LayoutPaired(width, line, n - 1);
      var a, b := Layout(width, line, n - 1), Cells(width, line[n - 1]);
      var r := Layout(width, line, n);
      forall p | 0 <= p < |r| ensures PairedAt(width, r, p) {
        if p < |a| {
          assert PairedAt(width, a, p);
        }
      }
    }
  }

  // ----- One write -----

  /** Overwriting the tail of a two-cell character clears its head. */
  function Beheaded(width: Widths, cells: seq<Cell>, x: nat): (r: seq<Cell>)
    requires x < |cells|
    ensures |r| == |cells|
  {
    if Tail(cells[x]) && x > 0 && Wide(width, cells[x - 1]) then cells[x - 1 := SPACE] else cells
  }

  /** Overwriting the head clears the tail. */
  function Betailed(cells: seq<Cell>, e: nat): (r: seq<Cell>)
    ensures |r| == |cells|
  {
    if e < |cells| && Tail(cells[e]) then cells[e := SPACE] else cells
  }

  function Overlaid(cells: seq<Cell>, x: nat, drawn: seq<Cell>): (r: seq<Cell>)
    requires x + |drawn| <= |cells|
    ensures |r| == |cells|
  {
    cells[..x] + drawn + cells[x + |drawn|..]
  }

  function Painted(width: Widths, cells: seq<Cell>, w: Write): (r: seq<Cell>)
    requires Clipped(width, w, |cells|)
    ensures |r| == |cells|
  {
    if w.line == [] then cells
    else
      LayoutNonempty(width, w.line, |w.line|);
      Betailed(Overlaid(Beheaded(width, cells, w.x), w.x, Drawn(width, w)), End(width, w))
  }

  lemma LayoutNonempty(width: Widths, line: seq<Cell>, n: nat)
    requires 0 < n <= |line|
    ensures Layout(width, line, n) != []
  {
  }

  lemma OverlaidMore(cells: seq<Cell>, x: nat, a: seq<Cell>, b: seq<Cell>)
    requires x + |a| + |b| <= |cells|
    ensures Overlaid(Overlaid(cells, x, a), x + |a|, b) == Overlaid(cells, x, a + b)
  {
  }

  lemma OverlaidPut(cells: seq<Cell>, x: nat, drawn: seq<Cell>, c: Cell)
    requires x + |drawn| < |cells|
    ensures Overlaid(cells, x, drawn)[x + |drawn| := c] == Overlaid(cells, x, drawn + [c])
  {
  }

  /** A head and, for a wide character, its empty cell. */
  method PaintCharacter(width: Widths, cells: array<Cell>, offset: nat, c: Cell) returns (span: nat)
    requires width(c.value) <= 2 && offset + |Cells(width, c)| <= cells.Length
    modifies cells
    ensures span == |Cells(width, c)| && cells[..] == Overlaid(old(cells[..]), offset, Cells(width, c))
  {
    ghost var before := cells[..];
    span := if width(c.value) > 1 then width(c.value) else 1;
    cells[offset] := c;
    assert cells[..] == Overlaid(before, offset, [c]);
    for index := 1 to span
      invariant cells[..] == Overlaid(before, offset, Cells(width, c)[..index])
    {
      cells[offset + index] := Cell("", c.styles);
      OverlaidPut(before, offset, Cells(width, c)[..index], Cell("", c.styles));
      assert Cells(width, c)[..index] + [Cell("", c.styles)] == Cells(width, c)[..index + 1];
    }
    assert Cells(width, c)[..span] == Cells(width, c);
  }

  /** One character more of a line. */
  lemma LayoutOverlaid(width: Widths, cells: seq<Cell>, x: nat, line: seq<Cell>, i: nat)
    requires i < |line| && x + |Layout(width, line, |line|)| <= |cells|
    ensures x + |Layout(width, line, i)| + |Cells(width, line[i])| <= |cells|
    ensures Overlaid(Overlaid(cells, x, Layout(width, line, i)), x + |Layout(width, line, i)|, Cells(width, line[i]))
            == Overlaid(cells, x, Layout(width, line, i + 1))
    ensures |Layout(width, line, i + 1)| == |Layout(width, line, i)| + |Cells(width, line[i])|
  {
    LayoutGrows(width, line, i + 1, |line|);
    OverlaidMore(cells, x, Layout(width, line, i), Cells(width, line[i]));
  }

  /** The row `now` shows the first `i` characters of a line over the row `before`. */
  ghost predicate LineShown(width: Widths, before: seq<Cell>, x: nat, line: seq<Cell>, i: nat, offset: nat,
                            now: seq<Cell>)
  {
    && i <= |line| && Drawable(width, line) && x + |Layout(width, line, |line|)| <= |before|
    && offset == x + |Layout(width, line, i)| <= |before|
    && now == Overlaid(before, x, Layout(width, line, i))
  }

  lemma LineBegins(width: Widths, before: seq<Cell>, x: nat, line: seq<Cell>)
    requires Drawable(width, line) && x + |Layout(width, line, |line|)| <= |before|
    ensures LineShown(width, before, x, line, 0, x, before)
  {
  }

  /** One character of a line. */
  method PaintNext(width: Widths, ghost before: seq<Cell>, cells: array<Cell>, x: nat, line: seq<Cell>, i: nat,
                   offset: nat)
    returns (next: nat)
    requires i < |line| && LineShown(width, before, x, line, i, offset, cells[..])
    modifies cells
    ensures LineShown(width, before, x, line, i + 1, next, cells[..])
  {
    LayoutOverlaid(width, before, x, line, i);
    assert cells.Length == |before|;
    var span := PaintCharacter(width, cells, offset, line[i]);
    next := offset + span;
  }

  /** The characters of a line, one after the other. */
  method PaintLine(width: Widths, cells: array<Cell>, x: nat, line: seq<Cell>) returns (offset: nat)
    requires Drawable(width, line) && x + |Layout(width, line, |line|)| <= cells.Length
    modifies cells
    ensures LineShown(width, old(cells[..]), x, line, |line|, offset, cells[..])
  {
    offset := x;
    LineBegins(width, cells[..], x, line);
    for i := 0 to |line|
      invariant LineShown(width, old(cells[..]), x, line, i, offset, cells[..])
    {
      offset := PaintNext(width, old(cells[..]), cells, x, line, i, offset);
    }
  }

  /** The painting of one write, in place. */
  method PaintWrite(width: Widths, cells: array<Cell>, w: Write)
    requires Clipped(width, w, cells.Length)
    modifies cells
    ensures cells[..] == Painted(width, old(cells[..]), w)
  {
    if w.line == [] {
      return;
    }
    LayoutNonempty(width, w.line, |w.line|);
    ClearHead(width, cells, w.x);
    var offset := PaintLine(width, cells, w.x, w.line);
    ClearTail(cells, offset);
  }

  method ClearHead(width: Widths, cells: array<Cell>, x: nat)
    requires x < cells.Length
    modifies cells
    ensures cells[..] == Beheaded(width, old(cells[..]), x)
  {
    if cells[x].value == "" && x > 0 && width(cells[x - 1].value) > 1 {
      cells[x - 1] := SPACE;
    }
  }

  method ClearTail(cells: array<Cell>, offset: nat)
    modifies cells
    ensures cells[..] == Betailed(old(cells[..]), offset)
  {
    if offset < cells.Length && cells[offset].value == "" {
      cells[offset] := SPACE;
    }
  }

  lemma {:induction false} LayoutGrows(width: Widths, line: seq<Cell>, m: nat, n: nat)
    requires m <= n <= |line|
    ensures |Layout(width, line, m)| <= |Layout(width, line, n)|
  {
    if m < n {
      LayoutGrows(width, line, m, n - 1);
    }
  }

  // ----- All writes -----

  predicate AllClipped(width: Widths, writes: seq<Write>, total: nat) {
    forall i :: 0 <= i < |writes| ==> Clipped(width, writes[i], total)
  }

  /** The row after the first `n` writes. */
  function Row(width: Widths, writes: seq<Write>, total: nat, n: nat): (r: seq<Cell>)
    requires n <= |writes| && AllClipped(width, writes, total)
    ensures |r| == total
  {
    if n == 0 then seq(total, _ => SPACE) else Painted(width, Row(width, writes, total, n - 1), writes[n - 1])
  }

  predicate Covers(width: Widths, w: Write, p: int) {
    w.x <= p < End(width, w)
  }

  /** The last of the first `n` writes that covers a cell; -1 when none does. */
  function Top(width: Widths, writes: seq<Write>, n: nat, p: int): (i: int)
    requires n <= |writes|
    ensures -1 <= i < n && (i >= 0 ==> Covers(width, writes[i], p))
  {
    if n == 0 then -1 else if Covers(width, writes[n - 1], p) then n - 1 else Top(width, writes, n - 1, p)
  }

  /**
    What a cell shows, told without painting: the topmost write decides, and a character
    shows only if all of its cells are on top.
   */
  function Shown(width: Widths, writes: seq<Write>, n: nat, p: int): Cell
    requires n <= |writes|
  {
    var i := Top(width, writes, n, p);
    if i < 0 then SPACE
    else
      var c := Drawn(width, writes[i])[p - writes[i].x];
      if Wide(width, c) && Top(width, writes, n, p + 1) != i then SPACE
      else if Tail(c) && Top(width, writes, n, p - 1) != i then SPACE
      else c
  }

  /** In what is shown, heads and tails come in pairs. */
  lemma ShownPaired(width: Widths, writes: seq<Write>, total: nat, n: nat, p: int)
    requires Measured(width) && AllClipped(width, writes, total) && n <= |writes|
    ensures Wide(width, Shown(width, writes, n, p)) ==> Tail(Shown(width, writes, n, p + 1))
    ensures Tail(Shown(width, writes, n, p)) ==> Wide(width, Shown(width, writes, n, p - 1))
    ensures Top(width, writes, n, p) >= 0 ==> 0 <= p < total
  {
    var i := Top(width, writes, n, p);
    if i >= 0 {
      var w := writes[i];
      LayoutPaired(width, w.line, |w.line|);
      assert PairedAt(width, Drawn(width, w), p - w.x);
      if Wide(width, Shown(width, writes, n, p)) {
        assert PairedAt(width, Drawn(width, w), p - w.x + 1);
      }
      if Tail(Shown(width, writes, n, p)) {
        assert PairedAt(width, Drawn(width, w), p - w.x - 1);
      }
    }
  }

  ghost predicate Shows(width: Widths, writes: seq<Write>, n: nat, row: seq<Cell>)
    requires n <= |writes|
  {
    forall p :: 0 <= p < |row| ==> row[p] == Shown(width, writes, n, p)
  }

  /** Painting, cell by cell. */
  lemma PaintedAt(width: Widths, row: seq<Cell>, w: Write, p: nat)
    requires Clipped(width, w, |row|) && w.line != [] && p < |row|
    ensures w.x < |row| && w.x < End(width, w)
    ensures Painted(width, row, w)[p] ==
      if Covers(width, w, p) then Drawn(width, w)[p - w.x]
      else if p == w.x - 1 && Tail(row[w.x]) && Wide(width, row[p]) then SPACE
      else if p == End(width, w) && Tail(row[p]) then SPACE
      else row[p]
  {
    LayoutNonempty(width, w.line, |w.line|);
  }

  /** Inside the new write. */
  lemma ShownInside(width: Widths, writes: seq<Write>, n: nat, p: int)
    requires Measured(width) && 0 < n <= |writes| && Drawable(width, writes[n - 1].line)
    requires Covers(width, writes[n - 1], p)
    ensures Shown(width, writes, n, p) == Drawn(width, writes[n - 1])[p - writes[n - 1].x]
  {
    var w := writes[n - 1];
    LayoutPaired(width, w.line, |w.line|);
    assert PairedAt(width, Drawn(width, w), p - w.x);
  }

  /** Outside the new write, where neither neighbour is covered anew. */
  lemma ShownFar(width: Widths, writes: seq<Write>, n: nat, p: int)
    requires 0 < n <= |writes|
    requires !Covers(width, writes[n - 1], p)
    requires !Covers(width, writes[n - 1], p + 1) && !Covers(width, writes[n - 1], p - 1)
    ensures Shown(width, writes, n, p) == Shown(width, writes, n - 1, p)
  {
  }

  /** Directly before the new write. */
  lemma ShownBefore(width: Widths, writes: seq<Write>, total: nat, n: nat, p: int)
    requires Measured(width) && AllClipped(width, writes, total) && 0 < n <= |writes|
    requires p == writes[n - 1].x - 1 && Covers(width, writes[n - 1], p + 1)
    ensures var was := Shown(width, writes, n - 1, p);
      Shown(width, writes, n, p) ==
        if Tail(Shown(width, writes, n - 1, p + 1)) && Wide(width, was) then SPACE else was
  {
    ShownPaired(width, writes, total, n - 1, p);
  }

  /** Directly behind the new write. */
  lemma ShownAfter(width: Widths, writes: seq<Write>, total: nat, n: nat, p: int)
    requires Measured(width) && AllClipped(width, writes, total) && 0 < n <= |writes|
    requires p == End(width, writes[n - 1]) && Covers(width, writes[n - 1], p - 1)
    ensures var was := Shown(width, writes, n - 1, p);
      Shown(width, writes, n, p) == if Tail(was) then SPACE else was
  {
    ShownPaired(width, writes, total, n - 1, p);
  }

  lemma PaintShows(width: Widths, writes: seq<Write>, n: nat, row: seq<Cell>)
    requires Measured(width) && AllClipped(width, writes, |row|) && 0 < n <= |writes|
    requires Shows(width, writes, n - 1, row)
    ensures Shows(width, writes, n, Painted(width, row, writes[n - 1]))
  {
    var w := writes[n - 1];
    forall p: nat | p < |row| ensures Painted(width, row, w)[p] == Shown(width, writes, n, p) {
      if w.line == [] {
        ShownFar(width, writes, n, p);
      } else {
        PaintedAt(width, row, w, p);
        if Covers(width, w, p) {
          ShownInside(width, writes, n, p);
        } else if p == w.x - 1 {
          ShownBefore(width, writes, |row|, n, p);
        } else if p == End(width, w) {
          ShownAfter(width, writes, |row|, n, p);
        } else {
          ShownFar(width, writes, n, p);
        }
      }
    }
  }

  /** Whatever the writes, painting them in order shows exactly what is on top. */
  lemma {:induction false} RowShows(width: Widths, writes: seq<Write>, total: nat, n: nat)
    requires Measured(width) && AllClipped(width, writes, total) && n <= |writes|
    ensures Shows(width, writes, n, Row(width, writes, total, n))
  {
    if n > 0 {
      RowShows(width, writes, total, n - 1);
      PaintShows(width, writes, n, Row(width, writes, total, n - 1));
    }
  }

  lemma RowPaired(width: Widths, writes: seq<Write>, total: nat)
    requires Measured(width) && AllClipped(width, writes, total)
    ensures Paired(width, Row(width, writes, total, |writes|))
  {
    var n := |writes|;
    var row := Row(width, writes, total, n);
    RowShows(width, writes, total, n);
    forall p: nat | p < |row| ensures PairedAt(width, row, p) {
      ShownPaired(width, writes, total, n, p);
      ShownPaired(width, writes, total, n, p + 1);
      ShownPaired(width, writes, total, n, p - 1);
    }
  }

  // ----- Width -----

  function RowWidth(width: Widths, cells: seq<Cell>, n: nat): nat
    requires n <= |cells|
  {
    if n == 0 then 0 else RowWidth(width, cells, n - 1) + width(cells[n - 1].value)
  }

  /** A cell with a character that has no width of its own. */
  predicate Hollow(width: Widths, c: Cell) {
    !Tail(c) && width(c.value) == 0
  }

  function Hollows(width: Widths, cells: seq<Cell>, n: nat): nat
    requires n <= |cells|
  {
    if n == 0 then 0 else Hollows(width, cells, n - 1) + (if Hollow(width, cells[n - 1]) then 1 else 0)
  }

  lemma {:induction false} PairedWidth(width: Widths, cells: seq<Cell>, n: nat)
    requires Measured(width) && Paired(width, cells) && n <= |cells|
    requires forall i :: 0 <= i < |cells| ==> width(cells[i].value) <= 2
    ensures RowWidth(width, cells, n) + Hollows(width, cells, n)
            == if n > 0 && Wide(width, cells[n - 1]) then n + 1 else n
  {
    if n > 0 {
      PairedWidth(width, cells, n - 1);
      assert PairedAt(width, cells, n - 1);
      if n > 1 {
        assert PairedAt(width, cells, n - 2);
      }
    }
  }

  lemma {:induction false} LayoutNarrow(width: Widths, line: seq<Cell>, n: nat, k: nat)
    requires Measured(width) && Drawable(width, line) && n <= |line| && k < |Layout(width, line, n)|
    ensures width(Layout(width, line, n)[k].value) <= 2
    ensures Hollow(width, Layout(width, line, n)[k]) ==> exists j :: 0 <= j < n && Hollow(width, line[j])
  {
    if k < |Layout(width, line, n - 1)| {
      LayoutNarrow(width, line, n - 1, k);
    }
  }

  /** The composed row is as wide as asked, less one for each cell that shows a character without width. */
  lemma RowKeepsWidth(width: Widths, writes: seq<Write>, total: nat)
    requires Measured(width) && AllClipped(width, writes, total)
    ensures var row := Row(width, writes, total, |writes|);
      RowWidth(width, row, total) + Hollows(width, row, total) == total
  {
    var n := |writes|;
    var row := Row(width, writes, total, n);
    RowShows(width, writes, total, n);
    RowPaired(width, writes, total);
    forall p | 0 <= p < total ensures width(row[p].value) <= 2 {
      var i := Top(width, writes, n, p);
      if i >= 0 {
        LayoutNarrow(width, writes[i].line, |writes[i].line|, p - writes[i].x);
      }
    }
    PairedWidth(width, row, total);
    if total > 0 {
      assert PairedAt(width, row, total - 1);
    }
  }

  /** Characters that take up the room they are given. */
  predicate Visible(width: Widths, line: seq<Cell>) {
    forall j :: 0 <= j < |line| ==> !Hollow(width, line[j])
  }

  /** So it is exactly as wide as asked when every character has a width. */
  lemma VisibleKeepsWidth(width: Widths, writes: seq<Write>, total: nat)
    requires Measured(width) && AllClipped(width, writes, total)
    requires forall i :: 0 <= i < |writes| ==> Visible(width, writes[i].line)
    ensures RowWidth(width, Row(width, writes, total, |writes|), total) == total
  {
    var n := |writes|;
    var row := Row(width, writes, total, n);
    RowShows(width, writes, total, n);
    forall p | 0 <= p < total ensures !Hollow(width, row[p]) {
      var i := Top(width, writes, n, p);
      if i >= 0 {
        assert Visible(width, writes[i].line);
        LayoutNarrow(width, writes[i].line, |writes[i].line|, p - writes[i].x);
      }
    }
    NoHollows(width, row, total);
    RowKeepsWidth(width, writes, total);
  }

  lemma {:induction false} NoHollows(width: Widths, cells: seq<Cell>, n: nat)
    requires n <= |cells| && forall p :: 0 <= p < n ==> !Hollow(width, cells[p])
    ensures Hollows(width, cells, n) == 0
  {
    if n > 0 {
      NoHollows(width, cells, n - 1);
    }
  }

  // ----- The cached composition -----

  /** The cache key holds all that the result depends on. */
  datatype Key = Key(total: nat, writes: seq<Write>)

  /** The uncached result; `render` serializes cells and trims the end. */
  function Composed(width: Widths, render: seq<Cell> -> string, key: Key): string
    requires AllClipped(width, key.writes, key.total)
  {
    render(Row(width, key.writes, key.total, |key.writes|))
  }

  predicate RightEntry(width: Widths, render: seq<Cell> -> string, e: BoundedCache.Entry<Key, string>) {
    AllClipped(width, e.key.writes, e.key.total) && e.value == Composed(width, render, e.key)
  }

  ghost predicate AllRight(width: Widths, render: seq<Cell> -> string, es: seq<BoundedCache.Entry<Key, string>>) {
    forall i :: 0 <= i < |es| ==> RightEntry(width, render, es[i])
  }

  method PaintRow(width: Widths, writes: seq<Write>, total: nat) returns (row: seq<Cell>)
    requires AllClipped(width, writes, total)
    ensures row == Row(width, writes, total, |writes|)
  {
    var cells := new Cell[total](_ => SPACE);
    PaintAll(width, writes, cells);
    row := cells[..];
  }

  /** The loop over the writes, on an empty row. */
  method PaintAll(width: Widths, writes: seq<Write>, cells: array<Cell>)
    requires AllClipped(width, writes, cells.Length) && forall p :: 0 <= p < cells.Length ==> cells[p] == SPACE
    modifies cells
    ensures cells[..] == Row(width, writes, cells.Length, |writes|)
  {
    ghost var total := cells.Length;
    assert cells[..] == Row(width, writes, total, 0);
    for i := 0 to |writes|
      invariant cells[..] == Row(width, writes, total, i)
    {
      PaintWrite(width, cells, writes[i]);
    }
  }

  method ComposeRow(width: Widths, render: seq<Cell> -> string, writes: seq<Write>, total: nat,
                    rows: BoundedCache.BoundedCache<Key, string>)
    returns (result: string)
    requires AllClipped(width, writes, total)
    requires rows.Valid() && AllRight(width, render, rows.entries)
    modifies rows
    ensures rows.Valid() && AllRight(width, render, rows.entries)
    ensures result == Composed(width, render, Key(total, writes))
  {
    var key := Key(total, writes);
    BoundedCache.TouchedFrom(rows.entries, key);
    var cached := rows.Get(key);
    if cached.Some? {
      return cached.value;
    }
    var row := PaintRow(width, writes, total);
    result := render(row);
    var entry := BoundedCache.Entry(key, result, rows.weigh(key, result));
    BoundedCache.StoredFrom(rows.entries, entry, rows.maxEntries, rows.maxWeight);
    rows.Set(key, result);
  }
}
