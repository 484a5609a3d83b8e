/**
  UTF-8 as Go's `unicode/utf8` package reads it, tied to the grammar of
  section 4 of RFC 3629.
 */
module Utf8 {

  type byte = b: int | 0 <= b < 256

  // ----- The grammar of section 4 of RFC 3629 -----

  predicate Tail(b: byte) {
    0x80 <= b <= 0xBF
  }

  predicate Char1(a: byte) {
    a <= 0x7F
  }

  predicate Char2(a: byte, b: byte) {
    0xC2 <= a <= 0xDF && Tail(b)
  }

  predicate Char3(a: byte, b: byte, c: byte) {
    && Tail(c)
    && (|| (a == 0xE0 && 0xA0 <= b <= 0xBF)
        || (0xE1 <= a <= 0xEC && Tail(b))
        || (a == 0xED && 0x80 <= b <= 0x9F)
        || (0xEE <= a <= 0xEF && Tail(b)))
  }

  predicate Char4(a: byte, b: byte, c: byte, d: byte) {
    && Tail(c) && Tail(d)
    && (|| (a == 0xF0 && 0x90 <= b <= 0xBF)
        || (0xF1 <= a <= 0xF3 && Tail(b))
        || (a == 0xF4 && 0x80 <= b <= 0x8F))
  }

  /** Length of the character that `s[i..e]` starts with, or 0 if it starts with none. */
  function CharLength(s: seq<byte>, i: nat, e: nat): (n: nat)
    requires i <= e <= |s|
    ensures i + n <= e
  {
    if i + 1 <= e && Char1(s[i]) then 1
    else if i + 2 <= e && Char2(s[i], s[i + 1]) then 2
    else if i + 3 <= e && Char3(s[i], s[i + 1], s[i + 2]) then 3
    else if i + 4 <= e && Char4(s[i], s[i + 1], s[i + 2], s[i + 3]) then 4
    else 0
  }

  /** `s[i..e]` is a (possibly empty) sequence of characters. */
  predicate Valid(s: seq<byte>, i: nat, e: nat)
    requires i <= e <= |s|
    decreases e - i
  {
    i == e || var n := CharLength(s, i, e); n > 0 && Valid(s, i + n, e)
  }

  predicate ValidString(s: seq<byte>) {
    Valid(s, 0, |s|)
  }

  /** The cursor `i` lies between two characters of `s`. */
  predicate Boundary(s: seq<byte>, i: int) {
    0 <= i <= |s| && Valid(s, 0, i)
  }

  // ----- Go's reading of the same bytes -----

  /** `utf8.RuneStart`. */
  predicate RuneStart(b: byte) {
    !Tail(b)
  }

  /** Length announced by the first byte; invalid first bytes announce 1. */
  function Announced(b: byte): nat {
    if 0xC2 <= b <= 0xDF then 2
    else if 0xE0 <= b <= 0xEF then 3
    else if 0xF0 <= b <= 0xF4 then 4
    else 1
  }

  /** Accept range of the second byte. */
  predicate SecondOk(b0: byte, b1: byte) {
    (if b0 == 0xE0 then 0xA0 else if b0 == 0xF0 then 0x90 else 0x80)
    <= b1 <=
    (if b0 == 0xED then 0x9F else if b0 == 0xF4 then 0x8F else 0xBF)
  }

  /** `utf8.FullRune(p[i:e])`. */
  predicate FullRune(p: seq<byte>, i: nat, e: nat)
    requires i <= e <= |p|
  {
    && i < e
    && (|| e - i >= Announced(p[i])
        || (e - i > 1 && !SecondOk(p[i], p[i + 1]))
        || (e - i > 2 && !Tail(p[i + 2])))
  }

  /** The size `utf8.DecodeRune(p[i:e])` reports; an invalid sequence has size 1. */
  function DecodeSize(p: seq<byte>, i: nat, e: nat): (n: nat)
    requires i < e <= |p|
    ensures 1 <= n && i + n <= e
  {
    var need := Announced(p[i]);
    if need == 1 || e - i < need || !SecondOk(p[i], p[i + 1]) then 1
    else if need == 2 then 2
    else if !Tail(p[i + 2]) then 1
    else if need == 3 then 3
    else if !Tail(p[i + 3]) then 1
    else 4
  }

  // ----- Agreement of the two -----

  lemma DecodeAgrees(p: seq<byte>, i: nat, e: nat)
    requires i <= e <= |p| && CharLength(p, i, e) > 0
    ensures CharLength(p, i, e) == Announced(p[i]) == DecodeSize(p, i, e)
    ensures FullRune(p, i, e) && RuneStart(p[i])
    ensures forall k :: i < k < i + CharLength(p, i, e) ==> Tail(p[k])
  {
  }

  /** A character reads the same whatever follows it, and a cut one is no full rune. */
  lemma CharCut(s: seq<byte>, i: nat, m: nat, e: nat)
    requires i <= m <= e <= |s| && CharLength(s, i, e) > 0
    ensures if i + CharLength(s, i, e) <= m then CharLength(s, i, m) == CharLength(s, i, e)
            else CharLength(s, i, m) == 0 && !FullRune(s, i, m) && m - i <= 3
  {
  }

  /** Decoding is deterministic: a valid prefix leaves a valid rest, and conversely. */
  lemma {:induction false} ValidSplit(s: seq<byte>, i: nat, m: nat, e: nat)
    requires i <= m <= e <= |s| && Valid(s, i, m)
    ensures Valid(s, i, e) <==> Valid(s, m, e)
    decreases m - i
  {
    if i < m {
      assert CharLength(s, i, m) == CharLength(s, i, e);
      ValidSplit(s, i + CharLength(s, i, m), m, e);
    }
  }

  /** In valid text the character boundaries are exactly the rune starts. */
  lemma {:induction false} BoundaryIsRuneStart(s: seq<byte>, i: nat, m: nat, e: nat)
    requires i <= m < e <= |s| && Valid(s, i, e)
    ensures Valid(s, i, m) <==> RuneStart(s[m])
    decreases m - i
  {
    DecodeAgrees(s, i, e);
    var n := CharLength(s, i, e);
    CharCut(s, i, m, e);
    if i + n <= m {
      BoundaryIsRuneStart(s, i + n, m, e);
    }
  }

  /** Validity only depends on the bytes in range; `t` holds them `d` places further left. */
  lemma {:induction false} SameBytes(s: seq<byte>, i: nat, e: nat, t: seq<byte>, d: int)
    requires d <= i <= e <= |s| && e - d <= |t|
    requires forall k :: i <= k < e ==> s[k] == t[k - d]
    ensures Valid(s, i, e) <==> Valid(t, i - d, e - d)
    decreases e - i
  {
    if i < e {
      var n := CharLength(s, i, e);
      assert n == CharLength(t, i - d, e - d);
      if n > 0 {
        SameBytes(s, i + n, e, t, d);
      }
    }
  }

  // ----- Bytes that may still become a character -----

  /** `p[i..e]` is the beginning of a character, but not the whole of it. */
  ghost predicate Unfinished(p: seq<byte>, i: nat, e: nat)
    requires i <= e <= |p|
  {
    exists more: seq<byte> :: more != [] && IsChar(p[i..e] + more)
  }

  predicate IsChar(s: seq<byte>) {
    s != [] && CharLength(s, 0, |s|) == |s|
  }

  /** Bytes that complete a character of which `b` is the first byte and `have` bytes are there. */
  function Completion(b: byte, have: nat): seq<byte> {
    var second: byte := if b == 0xE0 then 0xA0 else if b == 0xF0 then 0x90 else 0x80;
    var need := Announced(b);
    if have >= need then []
    else if have == 1 then [second] + seq(need - 2, _ => 0x80)
    else seq(need - have, _ => 0x80)
  }

  /** A rune is taken for incomplete exactly where more bytes could make it a character. */
  lemma UnfinishedIff(p: seq<byte>, i: nat, e: nat)
    requires i < e <= |p|
    ensures Unfinished(p, i, e) <==> !FullRune(p, i, e)
    ensures Unfinished(p, i, e) ==> e - i <= 3
  {
    var s := p[i..e];
    if !FullRune(p, i, e) {
      var more := Completion(p[i], e - i);
      assert IsChar(s + more);
    } else {
      forall more: seq<byte> | more != [] ensures !IsChar(s + more) {
        var t := s + more;
        assert forall k :: 0 <= k < |s| ==> t[k] == p[i + k];
      }
    }
  }
}
