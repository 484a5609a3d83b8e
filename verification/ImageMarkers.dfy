/**
  Chat input whose text holds one marker for each image
  (reuleauxcoder/domain/images.py:114-194): validation, splitting into parts and the text
  shown for the parts.
 */
module ImageMarkers {
  import opened Prelude

  // ----- Markers -----

  predicate IsDigit(c: char) {
    '0' <= c <= '9'
  }

  const OPENING := "[Image #"

  /** `[Image #N]` with a positive number. */
  predicate IsLabel(s: string) {
    && |s| >= |OPENING| + 2
    && s[..|OPENING|] == OPENING
    && '1' <= s[|OPENING|] <= '9'
    && (forall i :: |OPENING| < i < |s| - 1 ==> IsDigit(s[i]))
    && s[|s| - 1] == ']'
  }

  predicate Occurs(text: string, s: string, p: nat) {
    p + |s| <= |text| && text[p..p + |s|] == s
  }

  /** `str.count`, for a text that is not empty. */
  function Count(text: string, s: string, i: nat): nat
    requires s != "" && i <= |text|
    decreases |text| - i
  {
    if i + |s| > |text| then 0
    else if Occurs(text, s, i) then 1 + Count(text, s, i + |s|)
    else Count(text, s, i + 1)
  }

  /** `str.index` of a text that occurs. */
  function Index(text: string, s: string, i: nat): (p: nat)
    requires s != "" && i <= |text| && Count(text, s, i) > 0
    ensures Occurs(text, s, p)
    decreases |text| - i
  {
    if Occurs(text, s, i) then i else Index(text, s, i + 1)
  }

  lemma LabelBrackets(s: string, i: nat)
    requires IsLabel(s) && i < |s|
    ensures s[i] == '[' <==> i == 0
    ensures s[i] == ']' <==> i == |s| - 1
  {
    if i < |OPENING| {
      assert s[i] == s[..|OPENING|][i];
    }
  }

  lemma OccursAt(text: string, s: string, p: nat, i: nat)
    requires Occurs(text, s, p) && i < |s|
    ensures text[p + i] == s[i]
  {
    assert text[p..p + |s|][i] == s[i];
  }

  /** Markers never overlap: two of them at different places, or different ones anywhere. */
  lemma MarkersApart(text: string, a: string, b: string, p: nat, q: nat)
    requires IsLabel(a) && IsLabel(b) && Occurs(text, a, p) && Occurs(text, b, q)
    requires p != q || a != b
    ensures p + |a| <= q || q + |b| <= p
  {
    if p < q {
      InsideNone(text, a, b, p, q);
    } else if q < p {
      InsideNone(text, b, a, q, p);
    } else if |a| <= |b| {
      SamePlaceSame(text, a, b, p);
    } else {
      SamePlaceSame(text, b, a, p);
    }
  }

  /** A marker ends where its bracket closes, so there is only one at a place. */
  lemma SamePlaceSame(text: string, a: string, b: string, p: nat)
    requires IsLabel(a) && IsLabel(b) && Occurs(text, a, p) && Occurs(text, b, p) && |a| <= |b|
    ensures a == b
  {
    var i := |a| - 1;
    OccursAt(text, a, p, i);
    OccursAt(text, b, p, i);
    LabelBrackets(b, i);
  }

  /** No marker begins inside another one. */
  lemma InsideNone(text: string, a: string, b: string, p: nat, q: nat)
    requires IsLabel(a) && IsLabel(b) && Occurs(text, a, p) && Occurs(text, b, q) && p < q
    ensures p + |a| <= q
  {
    OccursAt(text, b, q, 0);
    LabelBrackets(b, 0);
    if q < p + |a| {
      var i := q - p;
      OccursAt(text, a, p, i);
      LabelBrackets(a, i);
    }
  }

  // ----- Input -----

  /** An image is whatever its reference says; only its identity matters here. */
  datatype ChatInput = ChatInput(text: string, images: seq<nat>, labels: seq<string>)

  /** What `__post_init__` demands of the labels. */
  predicate Valid(c: ChatInput) {
    c.labels == [] ||
    (&& |c.labels| == |c.images|
     && (forall i :: 0 <= i < |c.labels| ==> IsLabel(c.labels[i]) && Count(c.text, c.labels[i], 0) == 1)
     && (forall i, j :: 0 <= i < j < |c.labels| ==> c.labels[i] != c.labels[j]))
  }

  datatype Part = Text(text: string) | Image(image: nat)

  /** A label, its image and where the label stands. */
  datatype Mark = Mark(at: nat, tag: string, image: nat)

  function End(m: Mark): nat {
    m.at + |m.tag|
  }

  predicate Placed(text: string, m: Mark) {
    IsLabel(m.tag) && Occurs(text, m.tag, m.at)
  }

  predicate Ordered(ms: seq<Mark>) {
    forall i, j :: 0 <= i < j < |ms| ==> ms[i].at < ms[j].at
  }

  /** Marks in the order of the text, one behind the other. */
  predicate Laid(text: string, ms: seq<Mark>) {
    && (forall i :: 0 <= i < |ms| ==> Placed(text, ms[i]))
    && (forall i, j :: 0 <= i < j < |ms| ==> End(ms[i]) <= ms[j].at)
  }

  /** All that splitting needs of the marks. */
  predicate Bounds(text: string, ms: seq<Mark>) {
    forall i :: 0 <= i < |ms| ==> BoundAt(text, ms, i)
  }

  /** Mark `i` lies behind the one before it and inside the text. */
  predicate BoundAt(text: string, ms: seq<Mark>, i: nat)
    requires i < |ms|
  {
    Cursor(ms, i) <= ms[i].at && End(ms[i]) <= |text|
  }

  /** The end of the mark before the `n`-th. */
  function Cursor(ms: seq<Mark>, n: nat): nat
    requires n <= |ms|
  {
    if n == 0 then 0 else End(ms[n - 1])
  }

  lemma LaidBounds(text: string, ms: seq<Mark>)
    requires Laid(text, ms)
    ensures Bounds(text, ms)
  {
    forall i | 0 <= i < |ms| ensures BoundAt(text, ms, i) {
      assert Placed(text, ms[i]);
    }
  }

  // ----- Sorting -----

  function Insert(ms: seq<Mark>, m: Mark): seq<Mark> {
    if ms == [] || ms[|ms| - 1].at <= m.at then ms + [m] else Insert(ms[..|ms| - 1], m) + [ms[|ms| - 1]]
  }

  function SortMarks(ms: seq<Mark>): seq<Mark> {
    if ms == [] then [] else Insert(SortMarks(ms[..|ms| - 1]), ms[|ms| - 1])
  }

  predicate Below(ms: seq<Mark>, top: nat) {
    forall i :: 0 <= i < |ms| ==> ms[i].at < top
  }

  lemma {:induction false} InsertOrders(ms: seq<Mark>, m: Mark, top: nat)
    requires Ordered(ms) && Below(ms, top) && m.at < top
    requires forall i :: 0 <= i < |ms| ==> ms[i].at != m.at
    ensures Ordered(Insert(ms, m)) && Below(Insert(ms, m), top)
  {
    if ms != [] && ms[|ms| - 1].at > m.at {
      InsertOrders(ms[..|ms| - 1], m, ms[|ms| - 1].at);
    }
  }

  lemma {:induction false} InsertPermutes(ms: seq<Mark>, m: Mark)
    ensures multiset(Insert(ms, m)) == multiset(ms) + multiset{m}
  {
    if ms != [] && ms[|ms| - 1].at > m.at {
      InsertPermutes(ms[..|ms| - 1], m);
      assert ms == ms[..|ms| - 1] + [ms[|ms| - 1]];
    }
  }

  lemma {:induction false} SortPermutes(ms: seq<Mark>)
    ensures multiset(SortMarks(ms)) == multiset(ms) && |SortMarks(ms)| == |ms|
  {
    if ms != [] {
      var front, last := ms[..|ms| - 1], ms[|ms| - 1];
      assert ms == front + [last];
      SortPermutes(front);
      InsertPermutes(SortMarks(front), last);
    }
    assert |SortMarks(ms)| == |multiset(SortMarks(ms))|;
  }

  predicate DistinctPlaces(ms: seq<Mark>) {
    forall i, j :: 0 <= i < j < |ms| ==> ms[i].at != ms[j].at
  }

  /** A sorted mark is one of those given. */
  lemma SortedFrom(ms: seq<Mark>, k: nat)
    requires k < |SortMarks(ms)|
    ensures SortMarks(ms)[k] in ms
  {
    SortPermutes(ms);
    assert SortMarks(ms)[k] in multiset(SortMarks(ms));
  }

  lemma {:induction false} SortOrders(ms: seq<Mark>, top: nat)
    requires DistinctPlaces(ms) && Below(ms, top)
    ensures Ordered(SortMarks(ms)) && Below(SortMarks(ms), top)
  {
    if ms != [] {
      var front, last := ms[..|ms| - 1], ms[|ms| - 1];
      SortOrders(front, top);
      forall k | 0 <= k < |SortMarks(front)| ensures SortMarks(front)[k].at != last.at {
        SortedFrom(front, k);
      }
      InsertOrders(SortMarks(front), last, top);
    }
  }

  /** The mark of label `i`. */
  function MarkOf(c: ChatInput, i: nat): (m: Mark)
    requires Valid(c) && i < |c.labels|
    ensures Placed(c.text, m) && m.tag == c.labels[i] && m.image == c.images[i]
  {
    Mark(Index(c.text, c.labels[i], 0), c.labels[i], c.images[i])
  }

  function MarksOf(c: ChatInput): (r: seq<Mark>)
    requires Valid(c)
    ensures |r| == |c.labels| && forall i :: 0 <= i < |r| ==> r[i] == MarkOf(c, i)
  {
    seq(|c.labels|, i requires 0 <= i < |c.labels| => MarkOf(c, i))
  }

  /** The sorted marks lie one behind the other in the text. */
  lemma MarksLaid(c: ChatInput)
    requires Valid(c)
    ensures Laid(c.text, SortMarks(MarksOf(c)))
  {
    var given := MarksOf(c);
    var ms := SortMarks(given);
    forall i, j | 0 <= i < j < |given| ensures given[i].at != given[j].at {
      MarkersApart(c.text, given[i].tag, given[j].tag, given[i].at, given[j].at);
    }
    SortOrders(given, |c.text|);
    forall k | 0 <= k < |ms| ensures Placed(c.text, ms[k]) {
      SortedFrom(given, k);
    }
    forall i, j | 0 <= i < j < |ms| ensures End(ms[i]) <= ms[j].at {
      InsideNone(c.text, ms[i].tag, ms[j].tag, ms[i].at, ms[j].at);
    }
  }

  // ----- Parts -----

  /** The text from the mark before up to the end of mark `i`. */
  function Piece(text: string, ms: seq<Mark>, i: nat): (r: string)
    requires Bounds(text, ms) && i < |ms|
    ensures Cursor(ms, i) <= ms[i].at <= End(ms[i]) <= |text| && r == text[Cursor(ms, i)..End(ms[i])]
  {
    assert BoundAt(text, ms, i);
    text[Cursor(ms, i)..End(ms[i])]
  }

  /** The text behind the last mark. */
  function Remainder(text: string, ms: seq<Mark>): (r: string)
    requires Bounds(text, ms)
    ensures Cursor(ms, |ms|) <= |text| && r == text[Cursor(ms, |ms|)..]
  {
    assert ms != [] ==> BoundAt(text, ms, |ms| - 1);
    text[Cursor(ms, |ms|)..]
  }

  /** The parts of the first `n` marks: the text up to the end of a marker, then its image. */
  function Parts(text: string, ms: seq<Mark>, n: nat): seq<Part>
    requires Bounds(text, ms) && n <= |ms|
  {
    if n == 0 then []
    else Parts(text, ms, n - 1) + [Text(Piece(text, ms, n - 1)), Image(ms[n - 1].image)]
  }

  function Rest(text: string): seq<Part> {
    if text == "" then [] else [Text(text)]
  }

  function ImageParts(images: seq<nat>): (r: seq<Part>)
    ensures |r| == |images| && forall i :: 0 <= i < |r| ==> r[i] == Image(images[i])
  {
    seq(|images|, i requires 0 <= i < |images| => Image(images[i]))
  }

  lemma MarksBounded(c: ChatInput)
    requires Valid(c)
    ensures Bounds(c.text, SortMarks(MarksOf(c)))
  {
    MarksLaid(c);
    LaidBounds(c.text, SortMarks(MarksOf(c)));
  }

  datatype Content = Plain(text: string) | Mixed(parts: seq<Part>)

  /** `content`. */
  function ContentOf(c: ChatInput): Content
    requires Valid(c)
  {
    if c.images == [] then Plain(c.text)
    else if c.labels != [] then
      MarksBounded(c);
      var ms := SortMarks(MarksOf(c));
      Mixed(Parts(c.text, ms, |ms|) + Rest(Remainder(c.text, ms)))
    else Mixed(Rest(c.text) + ImageParts(c.images))
  }

  /** The loop over the sorted marks. */
  method SplitAtMarks(text: string, ms: seq<Mark>) returns (parts: seq<Part>)
    requires Bounds(text, ms)
    ensures parts == Parts(text, ms, |ms|) + Rest(Remainder(text, ms))
  {
    var cursor;
    parts, cursor := SplitMarked(text, ms);
    if cursor < |text| {
      parts := parts + [Text(text[cursor..])];
    } else {
      assert parts + [] == parts;
    }
  }

  method SplitMarked(text: string, ms: seq<Mark>) returns (parts: seq<Part>, cursor: nat)
    requires Bounds(text, ms)
    ensures parts == Parts(text, ms, |ms|) && cursor == Cursor(ms, |ms|)
  {
    parts, cursor := [], 0;
    for i := 0 to |ms|
      invariant cursor == Cursor(ms, i) <= |text|
      invariant parts == Parts(text, ms, i)
    {
      assert BoundAt(text, ms, i);
      var end := ms[i].at + |ms[i].tag|;
      parts := parts + [Text(text[cursor..end]), Image(ms[i].image)];
      cursor := end;
    }
  }

  method SplitContent(c: ChatInput) returns (r: Content)
    requires Valid(c)
    ensures r == ContentOf(c)
  {
    if c.images == [] {
      return Plain(c.text);
    }
    if c.labels == [] {
      return Mixed(Rest(c.text) + ImageParts(c.images));
    }
    MarksBounded(c);
    var parts := SplitAtMarks(c.text, SortMarks(MarksOf(c)));
    r := Mixed(parts);
  }

  function TextOf(parts: seq<Part>, n: nat): string
    requires n <= |parts|
  {
    if n == 0 then ""
    else TextOf(parts, n - 1) + (if parts[n - 1].Text? then parts[n - 1].text else "")
  }

  lemma {:induction false} PartsAt(text: string, ms: seq<Mark>, n: nat, i: nat)
    requires Bounds(text, ms) && i < n <= |ms|
    ensures |Parts(text, ms, n)| == 2 * n
    ensures Parts(text, ms, n)[2 * i] == Text(Piece(text, ms, i))
    ensures Parts(text, ms, n)[2 * i + 1] == Image(ms[i].image)
  {
    if i < n - 1 {
      PartsAt(text, ms, n - 1, i);
    } else if n > 1 {
      PartsAt(text, ms, n - 1, 0);
    }
  }

  /** All the parts of a labelled input. */
  function AllParts(text: string, ms: seq<Mark>): seq<Part>
    requires Bounds(text, ms)
  {
    Parts(text, ms, |ms|) + Rest(Remainder(text, ms))
  }

  /** Text up to the end of mark `i`, then its image. */
  predicate SplitAt(text: string, ms: seq<Mark>, parts: seq<Part>, i: nat)
    requires Bounds(text, ms) && i < |ms|
  {
    var k := 2 * i;
    && k + 1 < |parts|
    && parts[k] == Text(Piece(text, ms, i))
    && parts[k + 1] == Image(ms[i].image)
  }

  ghost predicate IsSplit(text: string, ms: seq<Mark>, parts: seq<Part>) {
    && Bounds(text, ms)
    && (forall i :: 0 <= i < |ms| ==> SplitAt(text, ms, parts, i))
    && 2 * |ms| <= |parts|
    && parts[2 * |ms|..] == Rest(Remainder(text, ms))
  }

  lemma AllPartsSplit(text: string, ms: seq<Mark>)
    requires Bounds(text, ms)
    ensures IsSplit(text, ms, AllParts(text, ms))
  {
    PartsLength(text, ms);
    forall i | 0 <= i < |ms| ensures SplitAt(text, ms, AllParts(text, ms), i) {
      PartsAt(text, ms, |ms|, i);
    }
  }

  lemma PartsLength(text: string, ms: seq<Mark>)
    requires Bounds(text, ms)
    ensures |Parts(text, ms, |ms|)| == 2 * |ms|
  {
    if ms != [] {
      PartsAt(text, ms, |ms|, 0);
    }
  }

  lemma GlueRest(text: string, a: nat)
    requires a <= |text|
    ensures text[..a] + text[a..] == text
  {
  }

  lemma GlueOn(text: string, a: nat, b: nat, s: string, more: string)
    requires a <= b <= |text| && s == text[..a] && more == text[a..b]
    ensures s + more == text[..b]
  {
  }

  lemma {:induction false} TextUpTo(text: string, ms: seq<Mark>, parts: seq<Part>, i: nat, k: nat)
    requires IsSplit(text, ms, parts) && i <= |ms| && k == 2 * i
    ensures k <= |parts| && Cursor(ms, i) <= |text|
    ensures TextOf(parts, k) == text[..Cursor(ms, i)]
  {
    if i > 0 {
      var h := i - 1;
      TextUpTo(text, ms, parts, h, k - 2);
      assert SplitAt(text, ms, parts, h);
      TextOfTwo(parts, k - 2);
      GlueOn(text, Cursor(ms, h), Cursor(ms, i), TextOf(parts, k - 2), parts[k - 2].text);
    }
  }

  lemma TextOfTwo(parts: seq<Part>, n: nat)
    requires n + 2 <= |parts| && parts[n].Text? && parts[n + 1].Image?
    ensures TextOf(parts, n + 2) == TextOf(parts, n) + parts[n].text
  {
    assert TextOf(parts, n + 2) == TextOf(parts, n + 1) + "";
  }

  /** The text parts together are the text. */
  lemma TextsAreText(text: string, ms: seq<Mark>, parts: seq<Part>)
    requires IsSplit(text, ms, parts)
    ensures TextOf(parts, |parts|) == text
  {
    var k, cursor := 2 * |ms|, Cursor(ms, |ms|);
    TextUpTo(text, ms, parts, |ms|, k);
    GlueRest(text, cursor);
    if cursor < |text| {
      assert parts[k] == parts[k..][0] == Text(text[cursor..]);
    }
  }

  /** An image directly behind a text that ends in a label. */
  predicate Follows(parts: seq<Part>, k: nat, tag: string, image: nat) {
    0 < k < |parts| && parts[k - 1].Text? && EndsWith(parts[k - 1].text, tag) && parts[k] == Image(image)
  }

  lemma MarkFollows(text: string, ms: seq<Mark>, i: nat)
    requires Bounds(text, ms) && i < |ms| && Placed(text, ms[i])
    ensures Follows(AllParts(text, ms), 2 * i + 1, ms[i].tag, ms[i].image)
  {
    AllPartsSplit(text, ms);
    assert SplitAt(text, ms, AllParts(text, ms), i);
    SuffixOfSlice(text, Cursor(ms, i), ms[i]);
  }

  /** Every label has its mark. */
  lemma MarkFound(c: ChatInput, j: nat) returns (i: nat)
    requires Valid(c) && j < |c.labels|
    ensures i < |SortMarks(MarksOf(c))| && SortMarks(MarksOf(c))[i] == MarkOf(c, j)
  {
    var ms := SortMarks(MarksOf(c));
    var m := MarksOf(c)[j];
    SortPermutes(MarksOf(c));
    assert m in multiset(ms);
    i :| 0 <= i < |ms| && ms[i] == m;
  }

  /** Each image of a labelled input directly follows the text that ends in its own marker. */
  lemma ImageFollowsMarker(c: ChatInput, j: nat)
    requires Valid(c) && j < |c.labels|
    ensures ContentOf(c).Mixed?
    ensures exists k :: Follows(ContentOf(c).parts, k, c.labels[j], c.images[j])
  {
    var ms := SortMarks(MarksOf(c));
    MarksBounded(c);
    var i := MarkFound(c, j);
    MarkFollows(c.text, ms, i);
    assert ContentOf(c) == Mixed(AllParts(c.text, ms));
  }

  lemma {:induction false} BareText(text: string, images: seq<nat>, n: nat)
    requires n <= |images|
    ensures TextOf(Rest(text) + ImageParts(images), |Rest(text)| + n) == text
  {
    var parts := Rest(text) + ImageParts(images);
    if n > 0 {
      BareText(text, images, n - 1);
      assert parts[|Rest(text)| + n - 1] == Image(images[n - 1]);
    } else if text != "" {
      assert parts[0] == Text(text) && TextOf(parts, 0) == "";
    }
  }

  /** The text parts of the content concatenate to the text of the input. */
  lemma ContentKeepsText(c: ChatInput)
    requires Valid(c)
    ensures match ContentOf(c)
      case Plain(text) => text == c.text
      case Mixed(parts) => TextOf(parts, |parts|) == c.text
  {
    if c.labels != [] {
      MarksBounded(c);
      AllPartsSplit(c.text, SortMarks(MarksOf(c)));
      TextsAreText(c.text, SortMarks(MarksOf(c)), AllParts(c.text, SortMarks(MarksOf(c))));
    } else {
      BareText(c.text, c.images, |c.images|);
    }
  }

  lemma SuffixOfSlice(text: string, a: nat, m: Mark)
    requires Placed(text, m) && a <= m.at
    ensures EndsWith(text[a..End(m)], m.tag)
  {
    var s := text[a..End(m)];
    assert s[|s| - |m.tag|..] == text[m.at..End(m)];
  }

  // ----- Display -----

  /** The loop state of `display_content`. */
  datatype Display = Display(text: string, number: nat, afterText: bool)

  /** A marker ends at `end`; it begins at `k` or later. */
  predicate MarkerFrom(text: string, k: nat, end: nat)
    requires k <= end <= |text|
    decreases end - k
  {
    IsLabel(text[k..end]) || (k < end && MarkerFrom(text, k + 1, end))
  }

  lemma {:induction false} MarkerFoundAt(text: string, k: nat, at: nat, end: nat)
    requires k <= at <= end <= |text| && IsLabel(text[at..end])
    ensures MarkerFrom(text, k, end)
    decreases at - k
  {
    if k < at {
      MarkerFoundAt(text, k + 1, at, end);
    }
  }

  /** A marker at the end of the text, or before a final line feed, as `$` matches. */
  predicate EndsInMarker(text: string) {
    MarkerFrom(text, 0, |text|) || (text != "" && text[|text| - 1] == '\n' && MarkerFrom(text, 0, |text| - 1))
  }

  function Decimal(n: nat): string {
    if n < 10 then [('0' as int + n) as char] else Decimal(n / 10) + [('0' as int + n % 10) as char]
  }

  /** One part; `marked` tells whether a text ends in a marker. */
  function Show(marked: string -> bool, d: Display, p: Part): Display {
    match p
    case Text(text) => Display(d.text + text, d.number, true)
    case Image(_) =>
      var number := d.number + 1;
      Display(if d.afterText && marked(d.text) then d.text
              else d.text + (if d.text == "" then "" else "\n") + OPENING + Decimal(number) + "]",
              number, false)
  }

  function ShowAll(marked: string -> bool, parts: seq<Part>, n: nat): Display
    requires n <= |parts|
  {
    if n == 0 then Display("", 0, false) else Show(marked, ShowAll(marked, parts, n - 1), parts[n - 1])
  }

  /** `display_content`. */
  method DisplayContent(parts: seq<Part>) returns (text: string)
    ensures text == ShowAll(EndsInMarker, parts, |parts|).text
  {
    text := "";
    var number, afterText := 0, false;
    for i := 0 to |parts|
      invariant ShowAll(EndsInMarker, parts, i) == Display(text, number, afterText)
    {
      match parts[i] {
        case Image(_) =>
          number := number + 1;
          if !afterText || !EndsInMarker(text) {
            text := text + (if text == "" then "" else "\n") + OPENING + Decimal(number) + "]";
          }
        case Text(t) =>
          text := text + t;
      }
      afterText := parts[i].Text?;
    }
  }

  predicate Marked(text: string, m: Mark) {
    End(m) <= |text| && EndsInMarker(text[..End(m)])
  }

  lemma MarkerAtEnd(text: string, m: Mark)
    requires Placed(text, m)
    ensures Marked(text, m)
  {
    var s := text[..End(m)];
    assert s[m.at..|s|] == m.tag;
    MarkerFoundAt(s, 0, m.at, |s|);
  }

  /** A text and an image behind its marker show as the text. */
  lemma ShowTwo(marked: string -> bool, parts: seq<Part>, n: nat)
    requires n + 2 <= |parts| && parts[n].Text? && parts[n + 1].Image?
    requires marked(ShowAll(marked, parts, n).text + parts[n].text)
    ensures ShowAll(marked, parts, n + 2)
            == Display(ShowAll(marked, parts, n).text + parts[n].text, ShowAll(marked, parts, n).number + 1, false)
  {
    var d := ShowAll(marked, parts, n);
    assert ShowAll(marked, parts, n + 1) == Display(d.text + parts[n].text, d.number, true);
  }

  lemma ShowText(marked: string -> bool, parts: seq<Part>, n: nat)
    requires n < |parts| && parts[n].Text?
    ensures ShowAll(marked, parts, n + 1).text == ShowAll(marked, parts, n).text + parts[n].text
  {
  }

  /** The text up to the end of each mark ends in a marker. */
  ghost predicate AllMarked(marked: string -> bool, text: string, ms: seq<Mark>) {
    forall j :: 0 <= j < |ms| ==> End(ms[j]) <= |text| && marked(text[..End(ms[j])])
  }

  /** The parts of the first `i` marks show as the text up to there. */
  predicate ShownTo(marked: string -> bool, text: string, ms: seq<Mark>, parts: seq<Part>, i: nat, k: nat) {
    && i <= |ms| && k <= |parts| && Cursor(ms, i) <= |text|
    && ShowAll(marked, parts, k) == Display(text[..Cursor(ms, i)], i, false)
  }

  lemma ShownPair(marked: string -> bool, text: string, ms: seq<Mark>, parts: seq<Part>, i: nat, k: nat)
    requires Bounds(text, ms) && i < |ms| && k == 2 * i && SplitAt(text, ms, parts, i) && marked(text[..End(ms[i])])
    requires ShownTo(marked, text, ms, parts, i, k)
    ensures ShownTo(marked, text, ms, parts, i + 1, k + 2)
  {
    GlueOn(text, Cursor(ms, i), End(ms[i]), text[..Cursor(ms, i)], Piece(text, ms, i));
    ShowTwo(marked, parts, k);
  }

  lemma ShownStep(marked: string -> bool, text: string, ms: seq<Mark>, parts: seq<Part>, i: nat, k: nat)
    requires IsSplit(text, ms, parts) && AllMarked(marked, text, ms) && i < |ms| && k == 2 * i
    requires ShownTo(marked, text, ms, parts, i, k)
    ensures ShownTo(marked, text, ms, parts, i + 1, k + 2)
  {
    assert SplitAt(text, ms, parts, i);
    ShownPair(marked, text, ms, parts, i, k);
  }

  lemma {:induction false} ShownUpTo(marked: string -> bool, text: string, ms: seq<Mark>, parts: seq<Part>,
                                     i: nat, k: nat)
    requires IsSplit(text, ms, parts) && AllMarked(marked, text, ms) && i <= |ms| && k == 2 * i
    ensures ShownTo(marked, text, ms, parts, i, k)
  {
    if i > 0 {
      ShownUpTo(marked, text, ms, parts, i - 1, k - 2);
      ShownStep(marked, text, ms, parts, i - 1, k - 2);
    }
  }

  /** Behind the marked parts comes at most one more text. */
  lemma ShownIsText(marked: string -> bool, text: string, ms: seq<Mark>, parts: seq<Part>)
    requires IsSplit(text, ms, parts)
    requires AllMarked(marked, text, ms)
    ensures ShowAll(marked, parts, |parts|).text == text
  {
    var k, cursor := 2 * |ms|, Cursor(ms, |ms|);
    ShownUpTo(marked, text, ms, parts, |ms|, k);
    GlueRest(text, cursor);
    RestLength(Remainder(text, ms), parts, k);
    if cursor < |text| {
      ShowText(marked, parts, k);
    }
  }

  lemma RestLength(rest: string, parts: seq<Part>, k: nat)
    requires k <= |parts| && parts[k..] == Rest(rest)
    ensures if rest == "" then |parts| == k else |parts| == k + 1 && parts[k] == Text(rest)
  {
    assert |parts[k..]| == |parts| - k;
    assert rest != "" ==> parts[k..][0] == parts[k];
  }

  /** `display_text` of an input that is labelled, or has no images, is its text. */
  lemma DisplayIsText(c: ChatInput)
    requires Valid(c) && (c.labels != [] || c.images == [])
    ensures match ContentOf(c)
      case Plain(text) => text == c.text
      case Mixed(parts) => ShowAll(EndsInMarker, parts, |parts|).text == c.text
  {
    if c.images != [] {
      MarksLaid(c);
      MarksBounded(c);
      var ms := SortMarks(MarksOf(c));
      AllPartsSplit(c.text, ms);
      forall j | 0 <= j < |ms| ensures End(ms[j]) <= |c.text| && EndsInMarker(c.text[..End(ms[j])]) {
        MarkerAtEnd(c.text, ms[j]);
      }
      ShownIsText(EndsInMarker, c.text, ms, AllParts(c.text, ms));
    }
  }

  // ----- Every image once -----

  function ImagesOf(parts: seq<Part>, n: nat): seq<nat>
    requires n <= |parts|
  {
    if n == 0 then []
    else ImagesOf(parts, n - 1) + (if parts[n - 1].Image? then [parts[n - 1].image] else [])
  }

  lemma {:induction false} ImagesPrefix(a: seq<Part>, b: seq<Part>, n: nat)
    requires n <= |a|
    ensures ImagesOf(a + b, n) == ImagesOf(a, n)
  {
    if n > 0 {
      ImagesPrefix(a, b, n - 1);
    }
  }

  lemma {:induction false} ImagesAppend(a: seq<Part>, b: seq<Part>, n: nat)
    requires n <= |b|
    ensures ImagesOf(a + b, |a| + n) == ImagesOf(a, |a|) + ImagesOf(b, n)
  {
    if n == 0 {
      ImagesPrefix(a, b, |a|);
    } else {
      ImagesAppend(a, b, n - 1);
    }
  }

  /** The images of the first `n` marks. */
  function Pictured(ms: seq<Mark>, n: nat): seq<nat>
    requires n <= |ms|
  {
    if n == 0 then [] else Pictured(ms, n - 1) + [ms[n - 1].image]
  }

  lemma ImagesTwo(a: seq<Part>, text: string, image: nat)
    ensures ImagesOf(a + [Text(text), Image(image)], |a| + 2) == ImagesOf(a, |a|) + [image]
  {
    var two := [Text(text), Image(image)];
    ImagesPrefix(a, two, |a|);
    assert (a + two)[|a|] == two[0] && (a + two)[|a| + 1] == two[1];
    assert ImagesOf(a + two, |a| + 1) == ImagesOf(a, |a|);
  }

  lemma {:induction false} MarkedImages(text: string, ms: seq<Mark>, n: nat)
    requires Bounds(text, ms) && n <= |ms|
    ensures ImagesOf(Parts(text, ms, n), |Parts(text, ms, n)|) == Pictured(ms, n)
  {
    if n > 0 {
      MarkedImages(text, ms, n - 1);
      ImagesTwo(Parts(text, ms, n - 1), Piece(text, ms, n - 1), ms[n - 1].image);
    }
  }

  lemma RestImages(text: string)
    ensures ImagesOf(Rest(text), |Rest(text)|) == []
  {
    if text != "" {
      assert ImagesOf(Rest(text), 0) == [];
    }
  }

  lemma {:induction false} BareImages(images: seq<nat>, n: nat)
    requires n <= |images|
    ensures ImagesOf(ImageParts(images), n) == images[..n]
  {
    if n > 0 {
      BareImages(images, n - 1);
    }
  }

  lemma AllPartsImages(text: string, ms: seq<Mark>)
    requires Bounds(text, ms)
    ensures ImagesOf(AllParts(text, ms), |AllParts(text, ms)|) == Pictured(ms, |ms|)
  {
    var front, rest := Parts(text, ms, |ms|), Rest(Remainder(text, ms));
    MarkedImages(text, ms, |ms|);
    RestImages(Remainder(text, ms));
    ImagesAppend(front, rest, |rest|);
  }

  lemma BarePartsImages(text: string, images: seq<nat>)
    ensures var parts := Rest(text) + ImageParts(images); ImagesOf(parts, |parts|) == images
  {
    RestImages(text);
    BareImages(images, |images|);
    ImagesAppend(Rest(text), ImageParts(images), |images|);
    assert images[..|images|] == images;
  }

  /** The images come in the order of their markers in the text, each once; without markers in the order given. */
  lemma ImagesInOrder(c: ChatInput)
    requires Valid(c) && c.images != []
    ensures ContentOf(c).Mixed?
    ensures c.labels == [] ==> ImagesOf(ContentOf(c).parts, |ContentOf(c).parts|) == c.images
    ensures c.labels != [] ==>
      var ms := SortMarks(MarksOf(c));
      && multiset(ms) == multiset(MarksOf(c)) && Ordered(ms)
      && ImagesOf(ContentOf(c).parts, |ContentOf(c).parts|) == Pictured(ms, |ms|)
  {
    if c.labels == [] {
      BarePartsImages(c.text, c.images);
    } else {
      MarksLaid(c);
      MarksBounded(c);
      SortPermutes(MarksOf(c));
      AllPartsImages(c.text, SortMarks(MarksOf(c)));
      assert ContentOf(c) == Mixed(AllParts(c.text, SortMarks(MarksOf(c))));
    }
  }

  // ----- How images without markers are shown -----

  /** The text with the labels of the images `from` to `to` on lines of their own. */
  function Labelled(text: string, from: nat, to: nat): string
    decreases to
  {
    if to < from || to == 0 then text
    else
      var before := Labelled(text, from, to - 1);
      before + (if before == "" then "" else "\n") + OPENING + Decimal(to) + "]"
  }

  lemma {:induction false} BareShown(marked: string -> bool, text: string, images: seq<nat>, n: nat)
    requires n <= |images| && !marked("")
    ensures var parts, first := Rest(text) + ImageParts(images), if marked(text) then 2 else 1;
      ShowAll(marked, parts, |Rest(text)| + n) == Display(Labelled(text, first, n), n, n == 0 && text != "")
  {
    var parts := Rest(text) + ImageParts(images);
    if n == 0 {
      assert ShowAll(marked, parts, 0) == Display("", 0, false);
      assert text != "" ==> parts[0] == Text(text) && "" + text == text;
    } else {
      BareShown(marked, text, images, n - 1);
      assert parts[|Rest(text)| + n - 1] == Image(images[n - 1]);
    }
  }

  lemma EmptyHasNoMarker()
    ensures !EndsInMarker("")
  {
  }

  /**
    Images without markers are shown behind the text, numbered from one; a text that ends
    in a marker labels the first.
   */
  lemma UnlabelledDisplay(c: ChatInput)
    requires Valid(c) && c.labels == [] && c.images != []
    ensures ContentOf(c).Mixed?
    ensures ShowAll(EndsInMarker, ContentOf(c).parts, |ContentOf(c).parts|).text
         == Labelled(c.text, if EndsInMarker(c.text) then 2 else 1, |c.images|)
  {
    EmptyHasNoMarker();
    BareShown(EndsInMarker, c.text, c.images, |c.images|);
  }

  /** The number a decimal text stands for. */
  function ValueOf(s: string): int {
    if s == "" then 0 else 10 * ValueOf(s[..|s| - 1]) + (s[|s| - 1] as int - '0' as int)
  }

  lemma {:induction false} DecimalReads(n: nat)
    ensures ValueOf(Decimal(n)) == n && Decimal(n) != ""
    ensures forall i :: 0 <= i < |Decimal(n)| ==> IsDigit(Decimal(n)[i])
    ensures n > 0 ==> Decimal(n)[0] != '0'
  {
    var digit := ('0' as int + n % 10) as char;
    if n >= 10 {
      DecimalReads(n / 10);
      assert Decimal(n)[..|Decimal(n)| - 1] == Decimal(n / 10);
    } else {
      assert Decimal(n) == [digit] && [digit][..0] == "";
      assert ValueOf("") == 0;
    }
  }

  /** The label shown for an image is a marker, and names its number. */
  lemma ShownLabelIsMarker(n: nat)
    requires n > 0
    ensures IsLabel(OPENING + Decimal(n) + "]") && ValueOf(Decimal(n)) == n
  {
    DecimalReads(n);
    var s := OPENING + Decimal(n) + "]";
    assert s[..|OPENING|] == OPENING;
    assert forall i :: |OPENING| <= i < |s| - 1 ==> s[i] == Decimal(n)[i - |OPENING|];
  }
}
