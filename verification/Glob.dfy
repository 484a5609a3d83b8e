/**
  The portable `**` glob matcher (reuleauxcoder/domain/workspace.py:342-390 and
  reuleauxcoder-agent/internal/workspace/search.go:124-161). Paths and patterns are
  given by their non-empty segments; how one segment accepts a name is a parameter.
 */
module Glob {

  datatype Segment = DoubleStar | Single(pattern: string)

  /** `accepts(p, name)`: the wildcard segment `p` accepts the whole name. */
  type Accepts = (string, string) -> bool

  // ----- The language of a pattern -----

  /** Segment `j` takes `path[cuts[j]..cuts[j + 1]]`: exactly one accepted name, or any number for `**`. */
  predicate Cuts(accepts: Accepts, pattern: seq<Segment>, path: seq<string>, cuts: seq<nat>) {
    && |cuts| == |pattern| + 1
    && cuts[0] == 0 && cuts[|pattern|] == |path|
    && forall j :: 0 <= j < |pattern| ==> Takes(accepts, pattern, path, cuts, j)
  }

  predicate Takes(accepts: Accepts, pattern: seq<Segment>, path: seq<string>, cuts: seq<nat>, j: nat)
    requires j < |pattern| && |cuts| == |pattern| + 1
  {
    && cuts[j] <= cuts[j + 1] <= |path|
    && (pattern[j].Single? ==>
          cuts[j + 1] == cuts[j] + 1 && accepts(pattern[j].pattern, path[cuts[j]]))
  }

  /** The path can be cut into one piece per pattern segment. */
  ghost predicate Matches(accepts: Accepts, pattern: seq<Segment>, path: seq<string>) {
    exists cuts :: Cuts(accepts, pattern, path, cuts)
  }

  // ----- The state vector -----

  /** State `j` after `k` path segments: the first `j` pattern segments match the first `k` path segments. */
  predicate State(accepts: Accepts, pattern: seq<Segment>, path: seq<string>, j: nat, k: nat)
    requires j <= |pattern| && k <= |path|
    decreases j + k
  {
    if j == 0 then k == 0
    else if pattern[j - 1].DoubleStar? then
      State(accepts, pattern, path, j - 1, k) || (k > 0 && State(accepts, pattern, path, j, k - 1))
    else
      k > 0 && State(accepts, pattern, path, j - 1, k - 1) && accepts(pattern[j - 1].pattern, path[k - 1])
  }

  /** The two nested loops that fill `previous` and `current`. */
  method States(accepts: Accepts, pattern: seq<Segment>, path: seq<string>) returns (states: seq<bool>)
    ensures |states| == |pattern| + 1
    ensures forall j :: 0 <= j <= |pattern| ==> states[j] == State(accepts, pattern, path, j, |path|)
  {
    var n := |pattern|;
    var previous := new bool[n + 1](_ => false);
    previous[0] := true;
    for index := 0 to n
      invariant forall j :: 0 <= j <= index ==> previous[j] == State(accepts, pattern, path, j, 0)
      invariant forall j :: index < j <= n ==> !previous[j]
    {
      if pattern[index].DoubleStar? {
        previous[index + 1] := previous[index];
      }
    }
    for k := 0 to |path|
      invariant previous.Length == n + 1
      invariant forall j :: 0 <= j <= n ==> previous[j] == State(accepts, pattern, path, j, k)
    {
      var current := new bool[n + 1](_ => false);
      for index := 0 to n
        invariant previous.Length == n + 1 && current != previous
        invariant forall j :: 0 <= j <= n ==> previous[j] == State(accepts, pattern, path, j, k)
        invariant forall j :: 0 <= j <= index ==> current[j] == State(accepts, pattern, path, j, k + 1)
      {
        if pattern[index].DoubleStar? {
          current[index + 1] := current[index] || previous[index + 1];
        } else {
          current[index + 1] := previous[index] && accepts(pattern[index].pattern, path[k]);
        }
      }
      previous := current;
    }
    states := previous[..];
  }

  // ----- States and language agree -----

  /** A state holds exactly when the prefix of the pattern can be cut over the prefix of the path. */
  lemma {:induction false} StateIffCuts(accepts: Accepts, pattern: seq<Segment>, path: seq<string>, j: nat, k: nat)
    requires j <= |pattern| && k <= |path|
    ensures State(accepts, pattern, path, j, k) <==> Matches(accepts, pattern[..j], path[..k])
    decreases j + k
  {
    if State(accepts, pattern, path, j, k) {
      var cuts := StateHasCuts(accepts, pattern, path, j, k);
    }
    forall cuts | Cuts(accepts, pattern[..j], path[..k], cuts)
      ensures State(accepts, pattern, path, j, k)
    {
      CutsHaveState(accepts, pattern, path, j, k, cuts);
    }
  }

  lemma {:induction false} StateHasCuts(accepts: Accepts, pattern: seq<Segment>, path: seq<string>, j: nat, k: nat)
    returns (cuts: seq<nat>)
    requires j <= |pattern| && k <= |path| && State(accepts, pattern, path, j, k)
    ensures Cuts(accepts, pattern[..j], path[..k], cuts)
    decreases j + k
  {
    if j == 0 {
      cuts := [0];
    } else if pattern[j - 1].DoubleStar? && !State(accepts, pattern, path, j - 1, k) {
      var shorter := StateHasCuts(accepts, pattern, path, j, k - 1);
      cuts := shorter[j := k];
      forall i | 0 <= i < j
        ensures Takes(accepts, pattern[..j], path[..k], cuts, i)
      {
        assert Takes(accepts, pattern[..j], path[..k - 1], shorter, i);
      }
    } else {
      var k' := if pattern[j - 1].DoubleStar? then k else k - 1;
      var shorter := StateHasCuts(accepts, pattern, path, j - 1, k');
      cuts := shorter + [k];
      forall i | 0 <= i < j
        ensures Takes(accepts, pattern[..j], path[..k], cuts, i)
      {
        if i < j - 1 {
          assert Takes(accepts, pattern[..j - 1], path[..k'], shorter, i);
        }
      }
    }
  }

  lemma {:induction false} CutsHaveState(accepts: Accepts, pattern: seq<Segment>, path: seq<string>, j: nat, k: nat,
                                         cuts: seq<nat>)
    requires j <= |pattern| && k <= |path| && Cuts(accepts, pattern[..j], path[..k], cuts)
    ensures State(accepts, pattern, path, j, k)
    decreases j + k
  {
    if j > 0 {
      assert Takes(accepts, pattern[..j], path[..k], cuts, j - 1);
      var k' := cuts[j - 1];
      if pattern[j - 1].DoubleStar? && k' < k {
        var shorter, front := cuts[j := k - 1], path[..k - 1];
        forall i | 0 <= i < j
          ensures Takes(accepts, pattern[..j], front, shorter, i)
        {
          CutsOrdered(accepts, pattern[..j], path[..k], cuts, i + 1, j - 1);
          assert Takes(accepts, pattern[..j], path[..k], cuts, i);
        }
        CutsHaveState(accepts, pattern, path, j, k - 1, shorter);
      } else {
        var shorter, fewer := cuts[..j], pattern[..j - 1];
        forall i | 0 <= i < j - 1
          ensures Takes(accepts, fewer, path[..k'], shorter, i)
        {
          CutsOrdered(accepts, pattern[..j], path[..k], cuts, i + 1, j - 1);
          assert Takes(accepts, pattern[..j], path[..k], cuts, i);
        }
        CutsHaveState(accepts, pattern, path, j - 1, k', shorter);
      }
    }
  }

  lemma {:induction false} CutsOrdered(accepts: Accepts, pattern: seq<Segment>, path: seq<string>, cuts: seq<nat>,
                                       a: nat, b: int)
    requires Cuts(accepts, pattern, path, cuts) && b <= |pattern|
    ensures a <= b ==> cuts[a] <= cuts[b]
    decreases b - a
  {
    if a < b {
      assert Takes(accepts, pattern, path, cuts, a);
      CutsOrdered(accepts, pattern, path, cuts, a + 1, b);
    }
  }

  // ----- The public operations -----

  /** The specification of `matches`: an empty path or pattern never matches. */
  ghost predicate GlobMatch(accepts: Accepts, pattern: seq<Segment>, path: seq<string>) {
    path != [] && pattern != [] && Matches(accepts, pattern, path)
  }

  method MatchPath(accepts: Accepts, pattern: seq<Segment>, path: seq<string>) returns (matched: bool)
    ensures matched <==> GlobMatch(accepts, pattern, path)
  {
    if path == [] || pattern == [] {
      return false;
    }
    var states := States(accepts, pattern, path);
    matched := states[|states| - 1];
    StateIffCuts(accepts, pattern, path, |pattern|, |path|);
    assert pattern[..|pattern|] == pattern && path[..|path|] == path;
  }

  /** Whether consuming at least one more path segment can still match, read off the states. */
  predicate Open(accepts: Accepts, pattern: seq<Segment>, directory: seq<string>) {
    && pattern != []
    && (|| (exists j :: 0 <= j < |pattern| && State(accepts, pattern, directory, j, |directory|))
        || (pattern[|pattern| - 1].DoubleStar? && State(accepts, pattern, directory, |pattern|, |directory|)))
  }

  method CanMatchDescendant(accepts: Accepts, pattern: seq<Segment>, directory: seq<string>) returns (can: bool)
    ensures can <==> Open(accepts, pattern, directory)
  {
    if pattern == [] {
      return false;
    }
    var states := States(accepts, pattern, directory);
    for j := 0 to |pattern|
      invariant forall i :: 0 <= i < j ==> !states[i]
    {
      if states[j] {
        return true;
      }
    }
    can := pattern[|pattern| - 1].DoubleStar? && states[|pattern|];
  }

  lemma {:induction false} StatePrefix(accepts: Accepts, pattern: seq<Segment>, path: seq<string>, more: seq<string>,
                                       j: nat, k: nat)
    requires j <= |pattern| && k <= |path|
    ensures State(accepts, pattern, path, j, k) == State(accepts, pattern, path + more, j, k)
    decreases j + k
  {
    if j > 0 {
      if pattern[j - 1].DoubleStar? {
        StatePrefix(accepts, pattern, path, more, j - 1, k);
      }
      if k > 0 {
        StatePrefix(accepts, pattern, path, more, j - 1, k - 1);
        StatePrefix(accepts, pattern, path, more, j, k - 1);
      }
    }
  }

  /** A state that holds beyond position `d` leaves a trace in the states at `d`. */
  lemma {:induction false} Trace(accepts: Accepts, pattern: seq<Segment>, path: seq<string>, j: nat, k: nat, d: nat)
    requires j <= |pattern| && d < k <= |path| && State(accepts, pattern, path, j, k)
    ensures j > 0
    ensures || (exists i :: 0 <= i < j && State(accepts, pattern, path, i, d))
            || (pattern[j - 1].DoubleStar? && State(accepts, pattern, path, j, d))
    decreases j + k
  {
    if pattern[j - 1].DoubleStar? && !State(accepts, pattern, path, j - 1, k) {
      if k - 1 > d {
        Trace(accepts, pattern, path, j, k - 1, d);
      }
    } else {
      var k' := if pattern[j - 1].DoubleStar? then k else k - 1;
      if k' > d {
        Trace(accepts, pattern, path, j - 1, k', d);
      }
      assert exists i :: 0 <= i < j && State(accepts, pattern, path, i, d);
    }
  }

  /** Pruning is sound: a directory with a matching path strictly below it is never pruned. */
  lemma MatchBelowIsOpen(accepts: Accepts, pattern: seq<Segment>, directory: seq<string>, below: seq<string>)
    requires below != [] && GlobMatch(accepts, pattern, directory + below)
    ensures Open(accepts, pattern, directory)
  {
    var path := directory + below;
    var n, d := |pattern|, |directory|;
    StateIffCuts(accepts, pattern, path, n, |path|);
    assert pattern[..n] == pattern && path[..|path|] == path;
    Trace(accepts, pattern, path, n, |path|, d);
    forall i | 0 <= i <= n
      ensures State(accepts, pattern, path, i, d) == State(accepts, pattern, directory, i, d)
    {
      StatePrefix(accepts, pattern, directory, below, i, d);
    }
  }

  /** A name that a directory entry can have. */
  predicate IsName(name: string) {
    name != "" && '/' !in name
  }

  predicate AllNames(path: seq<string>) {
    forall i :: 0 <= i < |path| ==> IsName(path[i])
  }

  /** Every segment but `**` accepts some name. */
  ghost predicate Satisfiable(accepts: Accepts, pattern: seq<Segment>) {
    forall s :: s in pattern && s.Single? ==> exists name :: IsName(name) && accepts(s.pattern, name)
  }

  /** One name per remaining segment, each accepted. */
  lemma {:induction false} Complete(accepts: Accepts, pattern: seq<Segment>, directory: seq<string>, j: nat)
    returns (below: seq<string>)
    requires Satisfiable(accepts, pattern)
    requires j <= |pattern| && State(accepts, pattern, directory, j, |directory|)
    ensures |below| == |pattern| - j && AllNames(below)
    ensures State(accepts, pattern, directory + below, |pattern|, |directory| + |below|)
    decreases |pattern| - j
  {
    if j == |pattern| {
      below := [];
      assert directory + below == directory;
    } else {
      var name := "x";
      if pattern[j].Single? {
        assert pattern[j] in pattern;
        name :| IsName(name) && accepts(pattern[j].pattern, name);
      }
      var longer := directory + [name];
      StatePrefix(accepts, pattern, directory, [name], j, |directory|);
      if pattern[j].DoubleStar? {
        assert State(accepts, pattern, longer, j + 1, |directory|);
      }
      var rest := Complete(accepts, pattern, longer, j + 1);
      below := [name] + rest;
      assert directory + below == longer + rest;
    }
  }

  /** Pruning is exact: a directory stays open only if some path strictly below it matches. */
  lemma OpenHasMatchBelow(accepts: Accepts, pattern: seq<Segment>, directory: seq<string>)
    returns (below: seq<string>)
    requires Satisfiable(accepts, pattern)
    requires Open(accepts, pattern, directory)
    ensures below != [] && AllNames(below) && GlobMatch(accepts, pattern, directory + below)
  {
    var n := |pattern|;
    if exists j :: 0 <= j < n && State(accepts, pattern, directory, j, |directory|) {
      var j: nat :| j < n && State(accepts, pattern, directory, j, |directory|);
      below := Complete(accepts, pattern, directory, j);
    } else {
      below := ["x"];
      StatePrefix(accepts, pattern, directory, below, n, |directory|);
      assert State(accepts, pattern, directory + below, n, |directory| + 1);
    }
    var path := directory + below;
    StateIffCuts(accepts, pattern, path, n, |path|);
    assert pattern[..n] == pattern && path[..|path|] == path;
  }

  /** `can_match_descendant` holds exactly when some path strictly below the directory matches. */
  lemma OpenIffMatchBelow(accepts: Accepts, pattern: seq<Segment>, directory: seq<string>)
    requires Satisfiable(accepts, pattern)
    ensures Open(accepts, pattern, directory) <==>
            exists below :: below != [] && AllNames(below) && GlobMatch(accepts, pattern, directory + below)
  {
    if Open(accepts, pattern, directory) {
      var below := OpenHasMatchBelow(accepts, pattern, directory);
    }
    forall below | below != [] && AllNames(below) && GlobMatch(accepts, pattern, directory + below)
      ensures Open(accepts, pattern, directory)
    {
      MatchBelowIsOpen(accepts, pattern, directory, below);
    }
  }
}
