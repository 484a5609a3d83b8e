/**
  Recovery from rejected requests by sending fewer images
  (reuleauxcoder/domain/images.py:229-351): `image_parts`, `ImageRecovery.advance` and
  `project_images`.

  A reference and a data address are told apart by their identity. `load_image` succeeds.
 */
module ImageProjection {
  import opened Prelude

  /** `Ref` is an attachment of a turn, `Url` an image given by address, `Else` any other part. */
  datatype Part = Ref(identity: string, turn: Option<string>) | Url(identity: string) | Else(body: string)

  datatype Message = Plain(body: string) | Mixed(body: string, parts: seq<Part>)

  datatype Retention = History | UserTurn

  datatype Reason = OutsideTurn | Unsupported | Rejected | KeepingLatest

  /** What a part becomes: itself, a note that it was not sent, or an image with its caption. */
  datatype Sent =
    | Same(body: string)
    | Note(identity: string, reason: Reason)
    | Captioned(part: Part)
    | Address(part: Part)

  datatype Projected = PlainMessage(body: string) | MixedMessage(body: string, parts: seq<Sent>)

  datatype Recovery = Recovery(level: nat, stripped: set<string>)

  datatype View = View(supports: bool, retention: Retention, turn: Option<string>, recovery: Recovery)

  predicate IsImage(p: Part) {
    !p.Else?
  }

  function PartsOf(m: Message): seq<Part> {
    if m.Plain? then [] else m.parts
  }

  predicate Outside(v: View, p: Part) {
    v.retention.UserTurn? && p.Ref? && p.turn != v.turn
  }

  predicate Eligible(v: View, p: Part) {
    IsImage(p) && !Outside(v, p)
  }

  /** The eligible images among the first `n` parts. */
  function Images(v: View, parts: seq<Part>, n: nat): (r: seq<Part>)
    requires n <= |parts|
    ensures forall i :: 0 <= i < |r| ==> IsImage(r[i])
  {
    if n == 0 then []
    else Images(v, parts, n - 1) + (if Eligible(v, parts[n - 1]) then [parts[n - 1]] else [])
  }

  function ImagesIn(v: View, messages: seq<Message>, n: nat): (r: seq<Part>)
    requires n <= |messages|
    ensures forall i :: 0 <= i < |r| ==> IsImage(r[i])
  {
    if n == 0 then []
    else ImagesIn(v, messages, n - 1) + Images(v, PartsOf(messages[n - 1]), |PartsOf(messages[n - 1])|)
  }

  // ----- Projection -----

  /** Why an image is left out, if it is; `older` images are still to be dropped. */
  function ReasonFor(v: View, p: Part, older: nat): Option<Reason>
    requires IsImage(p)
  {
    if Outside(v, p) then Some(OutsideTurn)
    else if !v.supports then Some(Unsupported)
    else if v.recovery.level == 2 && p.identity in v.recovery.stripped then Some(Rejected)
    else if older > 0 then Some(KeepingLatest)
    else None
  }

  function Project(v: View, p: Part, older: nat): Sent {
    if p.Else? then Same(p.body)
    else
      var reason := ReasonFor(v, p, older);
      if reason.Some? then Note(p.identity, reason.value)
      else if p.Ref? then Captioned(p) else Address(p)
  }

  function Fewer(v: View, p: Part, older: nat): nat {
    if IsImage(p) && ReasonFor(v, p, older) == Some(KeepingLatest) && older > 0 then older - 1 else older
  }

  /** `older` after the first `n` parts. */
  function Left(v: View, parts: seq<Part>, n: nat, older: nat): nat
    requires n <= |parts|
  {
    if n == 0 then older else Fewer(v, parts[n - 1], Left(v, parts, n - 1, older))
  }

  function ProjectParts(v: View, parts: seq<Part>, n: nat, older: nat): (r: seq<Sent>)
    requires n <= |parts|
    ensures |r| == n
  {
    if n == 0 then []
    else ProjectParts(v, parts, n - 1, older) + [Project(v, parts[n - 1], Left(v, parts, n - 1, older))]
  }

  function ProjectMessage(v: View, m: Message, older: nat): Projected {
    if m.Plain? then PlainMessage(m.body) else MixedMessage(m.body, ProjectParts(v, m.parts, |m.parts|, older))
  }

  function LeftAfter(v: View, messages: seq<Message>, n: nat, older: nat): nat
    requires n <= |messages|
  {
    if n == 0 then older
    else
      var parts := PartsOf(messages[n - 1]);
      Left(v, parts, |parts|, LeftAfter(v, messages, n - 1, older))
  }

  function ProjectAll(v: View, messages: seq<Message>, n: nat, older: nat): (r: seq<Projected>)
    requires n <= |messages|
    ensures |r| == n
  {
    if n == 0 then []
    else ProjectAll(v, messages, n - 1, older)
         + [ProjectMessage(v, messages[n - 1], LeftAfter(v, messages, n - 1, older))]
  }

  function Older(v: View, messages: seq<Message>): nat {
    var n := |ImagesIn(v, messages, |messages|)|;
    if v.recovery.level == 1 && n > 2 then n - 2 else 0
  }

  /** `project_images`. */
  method ProjectImages(v: View, messages: seq<Message>) returns (r: seq<Projected>)
    ensures r == ProjectAll(v, messages, |messages|, Older(v, messages))
  {
    var older := Older(v, messages);
    r := [];
    for i := 0 to |messages|
      invariant r == ProjectAll(v, messages, i, Older(v, messages))
      invariant older == LeftAfter(v, messages, i, Older(v, messages))
    {
      var m := messages[i];
      if m.Plain? {
        r := r + [PlainMessage(m.body)];
      } else {
        var sent;
        sent, older := ProjectContent(v, m.parts, older);
        r := r + [MixedMessage(m.body, sent)];
      }
    }
  }

  /** The loop over the parts of a message. */
  method ProjectContent(v: View, parts: seq<Part>, start: nat) returns (sent: seq<Sent>, older: nat)
    ensures sent == ProjectParts(v, parts, |parts|, start) && older == Left(v, parts, |parts|, start)
  {
    sent, older := [], start;
    for i := 0 to |parts|
      invariant sent == ProjectParts(v, parts, i, start) && older == Left(v, parts, i, start)
    {
      var p := parts[i];
      if p.Else? {
        sent := sent + [Same(p.body)];
      } else {
        var reason := ReasonFor(v, p, older);
        if reason == Some(KeepingLatest) {
          older := older - 1;
        }
        sent := sent + [if reason.Some? then Note(p.identity, reason.value)
                        else if p.Ref? then Captioned(p) else Address(p)];
      }
    }
  }

  // ----- What is sent -----

  function Shipped(s: Sent): seq<Part> {
    if s.Captioned? || s.Address? then [s.part] else []
  }

  function ShippedParts(sent: seq<Sent>, n: nat): seq<Part>
    requires n <= |sent|
  {
    if n == 0 then [] else ShippedParts(sent, n - 1) + Shipped(sent[n - 1])
  }

  function ShippedIn(r: seq<Projected>, n: nat): seq<Part>
    requires n <= |r|
  {
    if n == 0 then []
    else ShippedIn(r, n - 1) + ShippedBy(r[n - 1])
  }

  function ShippedBy(m: Projected): seq<Part> {
    if m.PlainMessage? then [] else ShippedParts(m.parts, |m.parts|)
  }

  /** The images without the first `k`. */
  function From(images: seq<Part>, k: nat): seq<Part> {
    if k == 0 || images == [] then images else From(images[1..], k - 1)
  }

  function Minus(a: nat, b: nat): nat {
    if a > b then a - b else 0
  }

  lemma {:induction false} FromIsDrop(images: seq<Part>, k: nat)
    ensures From(images, k) == if k <= |images| then images[k..] else []
  {
    if k > 0 && images != [] {
      FromIsDrop(images[1..], k - 1);
      assert k <= |images| ==> images[1..][k - 1..] == images[k..];
    }
  }

  lemma {:induction false} FromSplit(a: seq<Part>, b: seq<Part>, k: nat)
    ensures From(a + b, k) == From(a, k) + From(b, Minus(k, |a|))
  {
    if a == [] {
      assert a + b == b;
      assert From(a, k) + From(b, k) == From(b, k);
    } else if k > 0 {
      FromSplit(a[1..], b, k - 1);
      assert (a + b)[1..] == a[1..] + b;
    }
  }

  /** A view that only drops the oldest images. */
  predicate Trimming(v: View) {
    v.supports && v.recovery.level != 2
  }

  lemma OneShipped(v: View, p: Part, older: nat)
    requires Trimming(v)
    ensures var e := if Eligible(v, p) then [p] else [];
      Shipped(Project(v, p, older)) == From(e, older) && Fewer(v, p, older) == Minus(older, |e|)
  {
  }

  lemma {:induction false} ShippedPrefix(sent: seq<Sent>, s: Sent, n: nat)
    requires n <= |sent|
    ensures ShippedParts(sent + [s], n) == ShippedParts(sent, n)
  {
    if n > 0 {
      ShippedPrefix(sent, s, n - 1);
    }
  }

  lemma ShippedSnoc(sent: seq<Sent>, s: Sent)
    ensures ShippedParts(sent + [s], |sent| + 1) == ShippedParts(sent, |sent|) + Shipped(s)
  {
    ShippedPrefix(sent, s, |sent|);
  }

  /** Two stretches, one after the other. */
  lemma Joins(a: seq<Part>, b: seq<Part>, k: nat, s: seq<Part>, t: seq<Part>)
    requires s == From(a, k) && t == From(b, Minus(k, |a|))
    ensures s + t == From(a + b, k)
  {
    FromSplit(a, b, k);
  }

  lemma {:induction false} PartsLeft(v: View, parts: seq<Part>, n: nat, older: nat)
    requires Trimming(v) && n <= |parts|
    ensures Left(v, parts, n, older) == Minus(older, |Images(v, parts, n)|)
  {
    if n > 0 {
      PartsLeft(v, parts, n - 1, older);
      OneShipped(v, parts[n - 1], Left(v, parts, n - 1, older));
    }
  }

  lemma {:induction false} PartsShipped(v: View, parts: seq<Part>, n: nat, older: nat)
    requires Trimming(v) && n <= |parts|
    ensures ShippedParts(ProjectParts(v, parts, n, older), n) == From(Images(v, parts, n), older)
  {
    if n > 0 {
      var p, left := parts[n - 1], Left(v, parts, n - 1, older);
      var e := if Eligible(v, p) then [p] else [];
      var r, last := ProjectParts(v, parts, n - 1, older), Project(v, p, left);
      var a := Images(v, parts, n - 1);
      assert ProjectParts(v, parts, n, older) == r + [last] && Images(v, parts, n) == a + e;
      assert ShippedParts(r + [last], n) == ShippedParts(r, n - 1) + Shipped(last) by {
        ShippedSnoc(r, last);
      }
      assert ShippedParts(r, n - 1) + Shipped(last) == From(a + e, older) by {
        PartsShipped(v, parts, n - 1, older);
        PartsLeft(v, parts, n - 1, older);
        OneShipped(v, p, left);
        Joins(a, e, older, ShippedParts(r, n - 1), Shipped(last));
      }
    }
  }

  lemma MessageShipped(v: View, m: Message, older: nat)
    requires Trimming(v)
    ensures ShippedBy(ProjectMessage(v, m, older)) == From(Images(v, PartsOf(m), |PartsOf(m)|), older)
    ensures Left(v, PartsOf(m), |PartsOf(m)|, older) == Minus(older, |Images(v, PartsOf(m), |PartsOf(m)|)|)
  {
    PartsShipped(v, PartsOf(m), |PartsOf(m)|, older);
    PartsLeft(v, PartsOf(m), |PartsOf(m)|, older);
  }

  lemma {:induction false} ShippedInPrefix(r: seq<Projected>, m: Projected, n: nat)
    requires n <= |r|
    ensures ShippedIn(r + [m], n) == ShippedIn(r, n)
  {
    if n > 0 {
      ShippedInPrefix(r, m, n - 1);
    }
  }

  lemma ShippedInSnoc(r: seq<Projected>, m: Projected)
    ensures ShippedIn(r + [m], |r| + 1) == ShippedIn(r, |r|) + ShippedBy(m)
  {
    ShippedInPrefix(r, m, |r|);
  }

  lemma {:induction false} AllLeft(v: View, messages: seq<Message>, n: nat, older: nat)
    requires Trimming(v) && n <= |messages|
    ensures LeftAfter(v, messages, n, older) == Minus(older, |ImagesIn(v, messages, n)|)
  {
    if n > 0 {
      AllLeft(v, messages, n - 1, older);
      MessageShipped(v, messages[n - 1], LeftAfter(v, messages, n - 1, older));
    }
  }

  lemma {:induction false} AllShipped(v: View, messages: seq<Message>, n: nat, older: nat)
    requires Trimming(v) && n <= |messages|
    ensures ShippedIn(ProjectAll(v, messages, n, older), n) == From(ImagesIn(v, messages, n), older)
  {
    if n > 0 {
      var m, left := messages[n - 1], LeftAfter(v, messages, n - 1, older);
      var a, e := ImagesIn(v, messages, n - 1), Images(v, PartsOf(m), |PartsOf(m)|);
      var r, last := ProjectAll(v, messages, n - 1, older), ProjectMessage(v, m, left);
      assert ProjectAll(v, messages, n, older) == r + [last];
      assert ImagesIn(v, messages, n) == a + e;
      assert ShippedIn(r + [last], n) == ShippedIn(r, n - 1) + ShippedBy(last) by {
        ShippedInSnoc(r, last);
      }
      assert ShippedIn(r, n - 1) + ShippedBy(last) == From(a + e, older) by {
        AllShipped(v, messages, n - 1, older);
        AllLeft(v, messages, n - 1, older);
        MessageShipped(v, m, left);
        Joins(a, e, older, ShippedIn(r, n - 1), ShippedBy(last));
      }
    }
  }

  /** All that a projection sends. */
  function Shipment(v: View, messages: seq<Message>): seq<Part> {
    ShippedIn(ProjectAll(v, messages, |messages|, Older(v, messages)), |messages|)
  }

  /** At level 1 exactly the last two eligible images are sent, or all of them if there are fewer; at level 0 all. */
  lemma LatestTwoSurvive(v: View, messages: seq<Message>)
    requires v.supports && v.recovery.level <= 1
    ensures var images := ImagesIn(v, messages, |messages|); var n := |images|;
      Shipment(v, messages) == if v.recovery.level == 1 && n > 2 then images[n - 2..] else images
  {
    AllShipped(v, messages, |messages|, Older(v, messages));
    var images := ImagesIn(v, messages, |messages|);
    FromIsDrop(images, Older(v, messages));
  }

  /** Messages keep their number, order and kind, and parts that are no images stay as they are. */
  lemma {:induction false} PositionsKept(v: View, messages: seq<Message>, n: nat, older: nat, i: nat)
    requires i < n <= |messages|
    ensures var r := ProjectAll(v, messages, n, older)[i]; var m := messages[i];
      && r.body == m.body && (r.PlainMessage? <==> m.Plain?)
      && (m.Mixed? ==>
            && |r.parts| == |m.parts|
            && forall k :: 0 <= k < |m.parts| && m.parts[k].Else? ==> r.parts[k] == Same(m.parts[k].body))
  {
    if i < n - 1 {
      PositionsKept(v, messages, n - 1, older, i);
    } else if messages[i].Mixed? {
      PartsKept(v, messages[i].parts, |messages[i].parts|, LeftAfter(v, messages, i, older));
    }
  }

  lemma {:induction false} PartsKept(v: View, parts: seq<Part>, n: nat, older: nat)
    requires n <= |parts|
    ensures forall k :: 0 <= k < n && parts[k].Else? ==> ProjectParts(v, parts, n, older)[k] == Same(parts[k].body)
  {
    if n > 0 {
      PartsKept(v, parts, n - 1, older);
    }
  }

  // ----- What is sent in place of each part -----

  /** What should stand for a part, given how many eligible images come before it and how many there are in all. */
  function Due(v: View, p: Part, before: nat, total: nat): Sent {
    match p
    case Else(body) => Same(body)
    case _ =>
      if v.retention == UserTurn && p.Ref? && p.turn != v.turn then Note(p.identity, OutsideTurn)
      else if !v.supports then Note(p.identity, Unsupported)
      else if v.recovery.level == 2 && p.identity in v.recovery.stripped then Note(p.identity, Rejected)
      else if v.recovery.level == 1 && before + 2 < total then Note(p.identity, KeepingLatest)
      else if p.Ref? then Captioned(p) else Address(p)
  }

  lemma {:induction false} PartSent(v: View, parts: seq<Part>, n: nat, older: nat, k: nat)
    requires k < n <= |parts|
    ensures ProjectParts(v, parts, n, older)[k] == Project(v, parts[k], Left(v, parts, k, older))
  {
    if k < n - 1 {
      PartSent(v, parts, n - 1, older, k);
    }
  }

  lemma {:induction false} MessageSent(v: View, messages: seq<Message>, n: nat, older: nat, i: nat)
    requires i < n <= |messages|
    ensures ProjectAll(v, messages, n, older)[i]
         == ProjectMessage(v, messages[i], LeftAfter(v, messages, i, older))
  {
    if i < n - 1 {
      MessageSent(v, messages, n - 1, older, i);
    }
  }

  lemma {:induction false} NoneLeft(v: View, parts: seq<Part>, n: nat)
    requires n <= |parts|
    ensures Left(v, parts, n, 0) == 0
  {
    if n > 0 {
      NoneLeft(v, parts, n - 1);
    }
  }

  lemma {:induction false} NoneLeftAfter(v: View, messages: seq<Message>, n: nat)
    requires n <= |messages|
    ensures LeftAfter(v, messages, n, 0) == 0
  {
    if n > 0 {
      NoneLeftAfter(v, messages, n - 1);
      NoneLeft(v, PartsOf(messages[n - 1]), |PartsOf(messages[n - 1])|);
    }
  }

  /** The countdown stands above zero exactly before the last two eligible images. */
  lemma CountdownAt(v: View, messages: seq<Message>, i: nat, k: nat)
    requires v.supports && i < |messages| && k < |PartsOf(messages[i])|
    ensures var older, parts := Older(v, messages), PartsOf(messages[i]);
      var before := |ImagesIn(v, messages, i)| + |Images(v, parts, k)|;
      Left(v, parts, k, LeftAfter(v, messages, i, older)) > 0 <==>
        v.recovery.level == 1 && before + 2 < |ImagesIn(v, messages, |messages|)|
  {
    var older, parts := Older(v, messages), PartsOf(messages[i]);
    if v.recovery.level == 2 {
      NoneLeftAfter(v, messages, i);
      NoneLeft(v, parts, k);
    } else {
      AllLeft(v, messages, i, older);
      PartsLeft(v, parts, k, LeftAfter(v, messages, i, older));
    }
  }

  /**
    Every part of every message is sent as it should be: other parts as they are, images
    unless a reason holds, and a note that gives the first reason that does.
   */
  lemma SentAsDue(v: View, messages: seq<Message>, i: nat, k: nat)
    requires i < |messages| && k < |PartsOf(messages[i])|
    ensures var r := ProjectAll(v, messages, |messages|, Older(v, messages))[i]; var parts := PartsOf(messages[i]);
      && r.MixedMessage? && |r.parts| == |parts|
      && r.parts[k] == Due(v, parts[k], |ImagesIn(v, messages, i)| + |Images(v, parts, k)|,
                           |ImagesIn(v, messages, |messages|)|)
  {
    var older, parts := Older(v, messages), PartsOf(messages[i]);
    MessageSent(v, messages, |messages|, older, i);
    PartSent(v, parts, |parts|, LeftAfter(v, messages, i, older), k);
    if v.supports {
      CountdownAt(v, messages, i, k);
    }
  }

  // ----- Recovery -----

  const EVERYTHING := View(true, History, None, Recovery(0, {}))

  /** `image_parts`. */
  function AllImages(messages: seq<Message>): (r: seq<Part>)
    ensures forall i :: 0 <= i < |r| ==> IsImage(r[i])
  {
    ImagesIn(EVERYTHING, messages, |messages|)
  }

  function Identities(images: seq<Part>): set<string>
    requires forall i :: 0 <= i < |images| ==> IsImage(images[i])
  {
    set p | p in images && IsImage(p) :: p.identity
  }

  function Advanced(r: Recovery, messages: seq<Message>): (Recovery, bool) {
    var images := AllImages(messages);
    if images == [] || r.level >= 2 then (r, false)
    else if r.level == 0 && |images| > 2 then (r.(level := 1), true)
    else (Recovery(2, r.stripped + Identities(images)), true)
  }

  class ImageRecovery {
    var level: nat
    var stripped: set<string>

    constructor ()
      ensures level == 0 && stripped == {}
    {
      level, stripped := 0, {};
    }

    method Advance(messages: seq<Message>) returns (changed: bool)
      modifies this
      ensures (Recovery(level, stripped), changed) == Advanced(old(Recovery(level, stripped)), messages)
      ensures level >= old(level) && stripped >= old(stripped) && (changed <==> level > old(level))
      ensures changed <==> old(level) < 2 && AllImages(messages) != []
    {
      var images := AllImages(messages);
      if images == [] || level >= 2 {
        return false;
      }
      if level == 0 && |images| > 2 {
        level := 1;
      } else {
        level := 2;
        stripped := stripped + Identities(images);
      }
      return true;
    }
  }

  /** No image of these parts may be sent. */
  predicate StrippedAll(v: View, parts: seq<Part>) {
    !v.supports
    || (v.recovery.level == 2
        && forall k :: 0 <= k < |parts| && IsImage(parts[k]) ==> parts[k].identity in v.recovery.stripped)
  }

  lemma {:induction false} NoPartShipped(v: View, parts: seq<Part>, n: nat, older: nat)
    requires StrippedAll(v, parts) && n <= |parts|
    ensures ShippedParts(ProjectParts(v, parts, n, older), n) == []
  {
    if n > 0 {
      var left := Left(v, parts, n - 1, older);
      var r, last := ProjectParts(v, parts, n - 1, older), Project(v, parts[n - 1], left);
      NoPartShipped(v, parts, n - 1, older);
      assert Shipped(last) == [];
      assert ProjectParts(v, parts, n, older) == r + [last];
      assert ShippedParts(r + [last], n) == [] by {
        ShippedSnoc(r, last);
      }
    }
  }

  lemma NoMessageShipped(v: View, m: Message, older: nat)
    requires StrippedAll(v, PartsOf(m))
    ensures ShippedBy(ProjectMessage(v, m, older)) == []
  {
    NoPartShipped(v, PartsOf(m), |PartsOf(m)|, older);
  }

  /** All images of message `i` are stripped. */
  predicate StrippedAt(v: View, messages: seq<Message>, i: nat)
    requires i < |messages|
  {
    StrippedAll(v, PartsOf(messages[i]))
  }

  lemma {:induction false} NoneShipped(v: View, messages: seq<Message>, n: nat, older: nat)
    requires n <= |messages| && forall i :: 0 <= i < |messages| ==> StrippedAt(v, messages, i)
    ensures ShippedIn(ProjectAll(v, messages, n, older), n) == []
  {
    if n > 0 {
      var m, left := messages[n - 1], LeftAfter(v, messages, n - 1, older);
      var r, last := ProjectAll(v, messages, n - 1, older), ProjectMessage(v, m, left);
      NoneShipped(v, messages, n - 1, older);
      assert ShippedBy(last) == [] by {
        assert StrippedAt(v, messages, n - 1);
        NoMessageShipped(v, m, left);
      }
      assert ShippedIn(r + [last], n) == [] by {
        ShippedInSnoc(r, last);
      }
      assert ProjectAll(v, messages, n, older) == r + [last];
    }
  }

  lemma {:induction false} ImageListed(parts: seq<Part>, n: nat, k: nat)
    requires k < n <= |parts| && IsImage(parts[k])
    ensures parts[k] in Images(EVERYTHING, parts, n)
  {
    if k < n - 1 {
      ImageListed(parts, n - 1, k);
    }
  }

  lemma {:induction false} MessageListed(messages: seq<Message>, n: nat, i: nat, p: Part)
    requires i < n <= |messages| && p in Images(EVERYTHING, PartsOf(messages[i]), |PartsOf(messages[i])|)
    ensures p in ImagesIn(EVERYTHING, messages, n)
  {
    if i < n - 1 {
      MessageListed(messages, n - 1, i, p);
    }
  }

  /** A model without image input gets no image at all. */
  lemma UnsupportedSendsNone(v: View, messages: seq<Message>)
    requires !v.supports
    ensures Shipment(v, messages) == []
  {
    assert forall i :: 0 <= i < |messages| ==> StrippedAt(v, messages, i);
    NoneShipped(v, messages, |messages|, Older(v, messages));
  }

  /** Once recovery is exhausted, no image of the messages it saw is sent. */
  lemma ExhaustedSendsNone(v: View, r: Recovery, messages: seq<Message>)
    requires v.recovery == Advanced(r, messages).0 && v.recovery.level == 2 && Advanced(r, messages).1
    ensures Shipment(v, messages) == []
  {
    forall i: nat | i < |messages| ensures StrippedAt(v, messages, i) {
      var parts := PartsOf(messages[i]);
      forall k | 0 <= k < |parts| && IsImage(parts[k]) ensures parts[k].identity in v.recovery.stripped {
        ImageListed(parts, |parts|, k);
        MessageListed(messages, |messages|, i, parts[k]);
      }
    }
    NoneShipped(v, messages, |messages|, Older(v, messages));
  }

  lemma {:induction false} SameImages(v: View, w: View, parts: seq<Part>, n: nat)
    requires v.retention == w.retention && (v.turn == w.turn || v.retention.History?) && n <= |parts|
    ensures Images(v, parts, n) == Images(w, parts, n)
  {
    if n > 0 {
      SameImages(v, w, parts, n - 1);
    }
  }

  /** Which images are eligible does not depend on the recovery, nor under history retention on the turn. */
  lemma {:induction false} SameImagesIn(v: View, w: View, messages: seq<Message>, n: nat)
    requires v.retention == w.retention && (v.turn == w.turn || v.retention.History?) && n <= |messages|
    ensures ImagesIn(v, messages, n) == ImagesIn(w, messages, n)
  {
    if n > 0 {
      SameImagesIn(v, w, messages, n - 1);
      SameImages(v, w, PartsOf(messages[n - 1]), |PartsOf(messages[n - 1])|);
    }
  }

  /** The view after a recovery step. */
  function Retried(v: View, messages: seq<Message>): View {
    v.(recovery := Advanced(v.recovery, messages).0)
  }

  /**
    A recovery step that reports success sends strictly fewer images if and only if the
    model takes images and there are eligible ones to drop: any at all for the last step,
    more than two for the one before.
   */
  lemma RecoveryShrinksIff(v: View, messages: seq<Message>)
    requires Advanced(v.recovery, messages).1
    ensures |Shipment(Retried(v, messages), messages)| < |Shipment(v, messages)| <==>
      v.supports
      && |ImagesIn(v, messages, |messages|)| > (if Retried(v, messages).recovery.level == 1 then 2 else 0)
  {
    var next := Retried(v, messages);
    SameImagesIn(v, next, messages, |messages|);
    if !v.supports {
      UnsupportedSendsNone(v, messages);
      UnsupportedSendsNone(next, messages);
    } else {
      LatestTwoSurvive(v, messages);
      if next.recovery.level == 1 {
        LatestTwoSurvive(next, messages);
      } else {
        ExhaustedSendsNone(next, v.recovery, messages);
      }
    }
  }

  /** So it always does when the whole history is in view. */
  lemma HistoryShrinks(v: View, messages: seq<Message>)
    requires v.supports && v.retention.History? && Advanced(v.recovery, messages).1
    ensures |Shipment(Retried(v, messages), messages)| < |Shipment(v, messages)|
  {
    SameImagesIn(v, EVERYTHING, messages, |messages|);
    RecoveryShrinksIff(v, messages);
  }

  /** Two addresses and a reference of an older turn: the step is taken for the sake of an image that is not sent. */
  function OlderTurn(): Message {
    Mixed("", [Url("x"), Url("y"), Ref("z", Some("old"))])
  }

  lemma OlderTurnImages(v: View)
    ensures Images(v, OlderTurn().parts, 3)
            == if Eligible(v, OlderTurn().parts[2]) then OlderTurn().parts else [Url("x"), Url("y")]
  {
    var parts := OlderTurn().parts;
    assert Images(v, parts, 1) == [Url("x")];
    assert Images(v, parts, 2) == [Url("x"), Url("y")];
  }

  lemma OlderTurnsMislead()
    ensures var v := View(true, UserTurn, Some("now"), Recovery(0, {})); var messages := [OlderTurn()];
      && Advanced(v.recovery, messages).1
      && Shipment(Retried(v, messages), messages) == Shipment(v, messages)
  {
    var v := View(true, UserTurn, Some("now"), Recovery(0, {}));
    var messages := [OlderTurn()];
    OlderTurnImages(v);
    OlderTurnImages(EVERYTHING);
    assert ImagesIn(v, messages, 0) == [] && ImagesIn(EVERYTHING, messages, 0) == [];
    assert |ImagesIn(v, messages, 1)| == 2 && |AllImages(messages)| == 3;
    SameImagesIn(v, Retried(v, messages), messages, 1);
    LatestTwoSurvive(v, messages);
    LatestTwoSurvive(Retried(v, messages), messages);
  }
}
