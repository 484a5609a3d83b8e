/**
  The bounded directory scan and its glob pruning
  (reuleauxcoder-agent/internal/workspace/search.go:40-122), over a finite tree.
  `children` are in the order in which the host lists and sorts them, and links to
  directories are plain entries.
 */
module WorkspaceScan {
  import opened Glob

  datatype Entry = Entry(name: string, isDir: bool, children: seq<Entry>)

  type Path = seq<string>

  type Test = Path -> bool

  // ----- The order of a scan -----

  /** Paths of the first `n` children. */
  function Listing(prefix: Path, children: seq<Entry>, n: nat): seq<Path>
    requires n <= |children|
  {
    if n == 0 then [] else Listing(prefix, children, n - 1) + [prefix + [children[n - 1].name]]
  }

  /** Everything visited below a directory: its children, then its open subdirectories, last one first. */
  function Order(prefix: Path, children: seq<Entry>, descend: Test): seq<Path>
    decreases children, |children| + 1
  {
    Listing(prefix, children, |children|) + Below(prefix, children, |children|, descend)
  }

  /** What is visited below the first `n` children, the last of them first. */
  function Below(prefix: Path, children: seq<Entry>, n: nat, descend: Test): seq<Path>
    requires n <= |children|
    decreases children, n
  {
    if n == 0 then []
    else
      var child := children[n - 1];
      (if Enters(prefix, child, descend) then Order(prefix + [child.name], child.children, descend) else [])
      + Below(prefix, children, n - 1, descend)
  }

  predicate Enters(prefix: Path, child: Entry, descend: Test) {
    child.isDir && descend(prefix + [child.name])
  }

  function Filter(paths: seq<Path>, keep: Test): seq<Path> {
    if paths == [] then []
    else Filter(paths[..|paths| - 1], keep)
         + if keep(paths[|paths| - 1]) then [paths[|paths| - 1]] else []
  }

  lemma {:induction false} FilterAppend(a: seq<Path>, b: seq<Path>, keep: Test)
    ensures Filter(a + b, keep) == Filter(a, keep) + Filter(b, keep)
  {
    if b == [] {
      assert a + b == a;
    } else {
      assert (a + b)[..|a + b| - 1] == a + b[..|b| - 1];
      FilterAppend(a, b[..|b| - 1], keep);
    }
  }

  // ----- The scan loop with its explicit stack -----

  datatype Pending = Pending(prefix: Path, children: seq<Entry>)

  /** What is still to be visited: the stack is emptied from its end. */
  function StackOrder(pending: seq<Pending>, n: nat, descend: Test): seq<Path>
    requires n <= |pending|
  {
    if n == 0 then []
    else Order(pending[n - 1].prefix, pending[n - 1].children, descend) + StackOrder(pending, n - 1, descend)
  }

  lemma {:induction false} StackPrefix(a: seq<Pending>, b: seq<Pending>, n: nat, descend: Test)
    requires n <= |a| && a <= b
    ensures StackOrder(a, n, descend) == StackOrder(b, n, descend)
  {
    if n > 0 {
      StackPrefix(a, b, n - 1, descend);
    }
  }

  /** Number of entries in a forest, counted for termination. */
  function Weight(children: seq<Entry>, n: nat): nat
    requires n <= |children|
    decreases children, n
  {
    if n == 0 then 0
    else 1 + Weight(children[n - 1].children, |children[n - 1].children|) + Weight(children, n - 1)
  }

  function StackWeight(pending: seq<Pending>, n: nat): nat
    requires n <= |pending|
  {
    if n == 0 then 0
    else 1 + Weight(pending[n - 1].children, |pending[n - 1].children|) + StackWeight(pending, n - 1)
  }

  lemma {:induction false} StackWeightPrefix(a: seq<Pending>, b: seq<Pending>, n: nat)
    requires n <= |a| && a <= b
    ensures StackWeight(a, n) == StackWeight(b, n)
  {
    if n > 0 {
      StackWeightPrefix(a, b, n - 1);
    }
  }

  /** The stack holds what is below the first `i` children, on top of what it held before. */
  ghost predicate Pushed(d: Pending, i: nat, descend: Test, stack: seq<Pending>, stack': seq<Pending>) {
    && i <= |d.children|
    && StackOrder(stack', |stack'|, descend)
       == Below(d.prefix, d.children, i, descend) + StackOrder(stack, |stack|, descend)
    && StackWeight(stack', |stack'|) <= StackWeight(stack, |stack|) + Weight(d.children, i)
  }

  lemma PushChild(d: Pending, i: nat, descend: Test, stack: seq<Pending>, stack': seq<Pending>)
    requires Pushed(d, i, descend, stack, stack') && i < |d.children|
    ensures var child := d.children[i];
            var relative := d.prefix + [child.name];
            Pushed(d, i + 1, descend, stack,
                   if Enters(d.prefix, child, descend) then stack' + [Pending(relative, child.children)] else stack')
  {
    var child := d.children[i];
    var p := Pending(d.prefix + [child.name], child.children);
    var below, rest := Below(d.prefix, d.children, i, descend), StackOrder(stack, |stack|, descend);
    if Enters(d.prefix, child, descend) {
      Push(stack', p, descend);
      Regroup(Order(p.prefix, p.children, descend), below, rest);
    } else {
      Regroup([], below, rest);
    }
  }

  lemma Regroup(a: seq<Path>, b: seq<Path>, c: seq<Path>)
    ensures a + (b + c) == (a + b) + c && ([] + b) + c == b + c
  {
  }

  /** Lists one directory; its open subdirectories are pushed in order. */
  method ListDirectory(d: Pending, stack: seq<Pending>, visited: seq<Path>, maxEntries: nat, descend: Test)
    returns (stack': seq<Pending>, visited': seq<Path>, full: bool)
    requires |visited| < maxEntries
    ensures full ==> |visited'| == maxEntries
                     && visited' <= visited + Listing(d.prefix, d.children, |d.children|)
    ensures !full ==> && |visited'| < maxEntries
                      && visited' == visited + Listing(d.prefix, d.children, |d.children|)
                      && Pushed(d, |d.children|, descend, stack, stack')
  {
    stack', visited', full := stack, visited, false;
    PushNone(d, descend, stack);
    for i := 0 to |d.children|
      invariant visited' == visited + Listing(d.prefix, d.children, i) && |visited'| < maxEntries
      invariant Pushed(d, i, descend, stack, stack')
    {
      var relative := d.prefix + [d.children[i].name];
      visited' := visited' + [relative];
      if |visited'| >= maxEntries {
        ListingGrows(d.prefix, d.children, i + 1);
        return stack', visited', true;
      }
      stack' := PushOpen(d, i, descend, stack, stack', relative);
    }
  }

  lemma PushNone(d: Pending, descend: Test, stack: seq<Pending>)
    ensures Pushed(d, 0, descend, stack, stack)
  {
    assert Below(d.prefix, d.children, 0, descend) + StackOrder(stack, |stack|, descend)
        == StackOrder(stack, |stack|, descend);
  }

  /** An open subdirectory goes onto the stack. */
  method PushOpen(d: Pending, i: nat, descend: Test, ghost stack: seq<Pending>, pending: seq<Pending>, relative: Path)
    returns (pending': seq<Pending>)
    requires i < |d.children| && relative == d.prefix + [d.children[i].name] && Pushed(d, i, descend, stack, pending)
    ensures Pushed(d, i + 1, descend, stack, pending')
  {
    PushChild(d, i, descend, stack, pending);
    pending' := pending;
    if d.children[i].isDir && descend(relative) {
      pending' := pending' + [Pending(relative, d.children[i].children)];
    }
  }

  lemma {:induction false} ListingGrows(prefix: Path, children: seq<Entry>, n: nat)
    requires n <= |children|
    ensures Listing(prefix, children, n) <= Listing(prefix, children, |children|)
    decreases |children| - n
  {
    if n < |children| {
      ListingGrows(prefix, children, n + 1);
    }
  }

  lemma Push(stack: seq<Pending>, p: Pending, descend: Test)
    ensures StackOrder(stack + [p], |stack| + 1, descend)
         == Order(p.prefix, p.children, descend) + StackOrder(stack, |stack|, descend)
    ensures StackWeight(stack + [p], |stack| + 1)
         == 1 + Weight(p.children, |p.children|) + StackWeight(stack, |stack|)
  {
    StackPrefix(stack, stack + [p], |stack|, descend);
    StackWeightPrefix(stack, stack + [p], |stack|);
  }

  /** The scan visits the first `maxEntries` paths of the order; `truncated` says that the bound was reached. */
  method ScanWorkspace(root: seq<Entry>, maxEntries: nat, descend: Test)
    returns (visited: seq<Path>, truncated: bool)
    requires maxEntries >= 1
    ensures var order := Order([], root, descend);
            && truncated == (|order| >= maxEntries)
            && visited == if truncated then order[..maxEntries] else order
  {
    var pending := [Pending([], root)];
    visited := [];
    ghost var order := Order([], root, descend);
    assert StackOrder(pending, 1, descend) == order + StackOrder(pending, 0, descend);
    while |pending| > 0
      invariant Scanning(order, pending, visited, maxEntries, descend)
      decreases StackWeight(pending, |pending|)
    {
      var full;
      pending, visited, full := ScanTop(order, pending, visited, maxEntries, descend);
      if full {
        return visited, true;
      }
    }
    return visited, false;
  }

  /** What was visited and what is still on the stack make up the order. */
  ghost predicate Scanning(order: seq<Path>, pending: seq<Pending>, visited: seq<Path>, maxEntries: nat,
                           descend: Test)
  {
    |visited| < maxEntries && order == visited + StackOrder(pending, |pending|, descend)
  }

  /** The directory on top of the stack. */
  method ScanTop(ghost order: seq<Path>, pending: seq<Pending>, visited: seq<Path>, maxEntries: nat, descend: Test)
    returns (pending': seq<Pending>, visited': seq<Path>, full: bool)
    requires |pending| > 0 && Scanning(order, pending, visited, maxEntries, descend)
    ensures full ==> |order| >= maxEntries && visited' == order[..maxEntries]
    ensures !full ==> Scanning(order, pending', visited', maxEntries, descend)
                      && StackWeight(pending', |pending'|) < StackWeight(pending, |pending|)
  {
    var last := |pending| - 1;
    var d := pending[last];
    Pop(pending, descend);
    ghost var listing := Listing(d.prefix, d.children, |d.children|);
    ghost var below := Below(d.prefix, d.children, |d.children|, descend);
    ghost var deeper := StackOrder(pending[..last], last, descend);
    RegroupFour(visited, listing, below, deeper);
    pending', visited', full := ListDirectory(d, pending[..last], visited, maxEntries, descend);
  }

  lemma RegroupFour(a: seq<Path>, b: seq<Path>, c: seq<Path>, d: seq<Path>)
    ensures a + ((b + c) + d) == (a + b) + (c + d)
  {
  }

  lemma Pop(pending: seq<Pending>, descend: Test)
    requires |pending| > 0
    ensures var last := |pending| - 1;
            && StackOrder(pending, |pending|, descend)
               == Order(pending[last].prefix, pending[last].children, descend)
                  + StackOrder(pending[..last], last, descend)
            && StackWeight(pending, |pending|)
               == 1 + Weight(pending[last].children, |pending[last].children|) + StackWeight(pending[..last], last)
  {
    var last := |pending| - 1;
    StackPrefix(pending[..last], pending, last, descend);
    StackWeightPrefix(pending[..last], pending, last);
  }

  // ----- Pruning loses nothing -----

  /** `descend` never closes a directory that has a kept path strictly below it. */
  ghost predicate Sound(keep: Test, descend: Test) {
    forall d: Path, below: Path :: below != [] && keep(d + below) ==> descend(d)
  }

  function Everywhere(): Test {
    (p: Path) => true
  }

  ghost predicate StrictlyBelow(prefix: Path, p: Path) {
    |prefix| < |p| && prefix <= p
  }

  lemma {:induction false} ListingBelow(prefix: Path, children: seq<Entry>, n: nat)
    requires n <= |children|
    ensures forall p :: p in Listing(prefix, children, n) ==> StrictlyBelow(prefix, p)
  {
    if n > 0 {
      ListingBelow(prefix, children, n - 1);
    }
  }

  lemma {:induction false} OrderBelow(prefix: Path, children: seq<Entry>, descend: Test)
    ensures forall p :: p in Order(prefix, children, descend) ==> StrictlyBelow(prefix, p)
    decreases children, |children| + 1
  {
    ListingBelow(prefix, children, |children|);
    BelowBelow(prefix, children, |children|, descend);
  }

  lemma {:induction false} BelowBelow(prefix: Path, children: seq<Entry>, n: nat, descend: Test)
    requires n <= |children|
    ensures forall p :: p in Below(prefix, children, n, descend) ==> StrictlyBelow(prefix, p)
    decreases children, n
  {
    if n > 0 {
      var child := children[n - 1];
      OrderBelow(prefix + [child.name], child.children, descend);
      BelowBelow(prefix, children, n - 1, descend);
      forall p | StrictlyBelow(prefix + [child.name], p)
        ensures StrictlyBelow(prefix, p)
      {
        assert prefix <= prefix + [child.name];
      }
    }
  }

  /** A closed directory has no kept path below it. */
  lemma {:induction false} NothingKept(d: Path, paths: seq<Path>, keep: Test, descend: Test)
    requires Sound(keep, descend) && !descend(d)
    requires forall p :: p in paths ==> StrictlyBelow(d, p)
    ensures Filter(paths, keep) == []
  {
    if paths != [] {
      var p := paths[|paths| - 1];
      assert p in paths;
      assert p == d + p[|d|..];
      NothingKept(d, paths[..|paths| - 1], keep, descend);
    }
  }

  /** The pruned scan keeps the same paths in the same order, and visits no more than the full scan. */
  lemma {:induction false} PrunedKeepsAll(prefix: Path, children: seq<Entry>, keep: Test, descend: Test)
    requires Sound(keep, descend)
    ensures Filter(Order(prefix, children, descend), keep) == Filter(Order(prefix, children, Everywhere()), keep)
    ensures |Order(prefix, children, descend)| <= |Order(prefix, children, Everywhere())|
    decreases children, |children| + 1, 0
  {
    PrunedBelow(prefix, children, |children|, keep, descend);
    var listing := Listing(prefix, children, |children|);
    FilterAppend(listing, Below(prefix, children, |children|, descend), keep);
    FilterAppend(listing, Below(prefix, children, |children|, Everywhere()), keep);
  }

  lemma {:induction false} PrunedBelow(prefix: Path, children: seq<Entry>, n: nat, keep: Test, descend: Test)
    requires Sound(keep, descend) && n <= |children|
    ensures Filter(Below(prefix, children, n, descend), keep) == Filter(Below(prefix, children, n, Everywhere()), keep)
    ensures |Below(prefix, children, n, descend)| <= |Below(prefix, children, n, Everywhere())|
    decreases children, n, 1
  {
    if n > 0 {
      PrunedBelow(prefix, children, n - 1, keep, descend);
      PrunedChild(prefix, children, n, keep, descend);
    }
  }

  /** What the last child adds, given what the others do. */
  lemma {:induction false} PrunedChild(prefix: Path, children: seq<Entry>, n: nat, keep: Test, descend: Test)
    requires Sound(keep, descend) && 0 < n <= |children|
    requires Filter(Below(prefix, children, n - 1, descend), keep)
             == Filter(Below(prefix, children, n - 1, Everywhere()), keep)
    requires |Below(prefix, children, n - 1, descend)| <= |Below(prefix, children, n - 1, Everywhere())|
    ensures Filter(Below(prefix, children, n, descend), keep) == Filter(Below(prefix, children, n, Everywhere()), keep)
    ensures |Below(prefix, children, n, descend)| <= |Below(prefix, children, n, Everywhere())|
    decreases children, n, 0
  {
    var child := children[n - 1];
    var path := prefix + [child.name];
    var x := if Enters(prefix, child, descend) then Order(path, child.children, descend) else [];
    var y := if child.isDir then Order(path, child.children, Everywhere()) else [];
    if Enters(prefix, child, descend) {
      PrunedKeepsAll(path, child.children, keep, descend);
    } else if child.isDir {
      OrderBelow(path, child.children, Everywhere());
      NothingKept(path, y, keep, descend);
    }
    FilterJoins(x, y, Below(prefix, children, n - 1, descend), Below(prefix, children, n - 1, Everywhere()), keep);
  }

  lemma FilterJoins(x: seq<Path>, y: seq<Path>, a: seq<Path>, b: seq<Path>, keep: Test)
    requires Filter(x, keep) == Filter(y, keep) && Filter(a, keep) == Filter(b, keep)
    ensures Filter(x + a, keep) == Filter(y + b, keep)
  {
    FilterAppend(x, a, keep);
    FilterAppend(y, b, keep);
  }

  // ----- Globbing a workspace -----

  ghost function Keep(accepts: Accepts, pattern: seq<Segment>): Test {
    (p: Path) => GlobMatch(accepts, pattern, p)
  }

  function Descend(accepts: Accepts, pattern: seq<Segment>): Test {
    (p: Path) => Open(accepts, pattern, p)
  }

  lemma GlobPruningSound(accepts: Accepts, pattern: seq<Segment>)
    ensures Sound(Keep(accepts, pattern), Descend(accepts, pattern))
  {
    forall d: Path, below: Path | below != [] && GlobMatch(accepts, pattern, d + below)
      ensures Open(accepts, pattern, d)
    {
      MatchBelowIsOpen(accepts, pattern, d, below);
    }
  }

  lemma {:induction false} FilterPrefix(a: seq<Path>, b: seq<Path>, keep: Test)
    requires a <= b
    ensures Filter(a, keep) <= Filter(b, keep)
  {
    assert b == a + b[|a|..];
    FilterAppend(a, b[|a|..], keep);
  }

  /**
    On every finite tree, globbing with pruned descent finds a prefix of the matches
    of the full scan, in order, and all of them unless the listing was truncated;
    and a full scan that fits the entry limit means that the pruned one fits too.
   */
  lemma PrunedGlob(accepts: Accepts, pattern: seq<Segment>, root: seq<Entry>, maxEntries: nat,
                   visited: seq<Path>, truncated: bool)
    requires maxEntries >= 1
    requires var order := Order([], root, Descend(accepts, pattern));
             && truncated == (|order| >= maxEntries)
             && visited == if truncated then order[..maxEntries] else order
    ensures var all := Filter(Order([], root, Everywhere()), Keep(accepts, pattern));
            && Filter(visited, Keep(accepts, pattern)) <= all
            && (!truncated ==> Filter(visited, Keep(accepts, pattern)) == all)
    ensures |Order([], root, Everywhere())| < maxEntries ==> !truncated
  {
    GlobPruningSound(accepts, pattern);
    PrunedKeepsAll([], root, Keep(accepts, pattern), Descend(accepts, pattern));
    FilterPrefix(visited, Order([], root, Descend(accepts, pattern)), Keep(accepts, pattern));
  }

  /** `globEntries` before its final sort by time: the matching entries in scan order. */
  method GlobEntries(accepts: Accepts, pattern: seq<Segment>, root: seq<Entry>, maxEntries: nat)
    returns (hits: seq<Path>, truncated: bool)
    requires maxEntries >= 1
    ensures var all := Filter(Order([], root, Everywhere()), Keep(accepts, pattern));
            hits <= all && (!truncated ==> hits == all)
    ensures |Order([], root, Everywhere())| < maxEntries ==> !truncated
  {
    var visited;
    visited, truncated := ScanWorkspace(root, maxEntries, Descend(accepts, pattern));
    hits := KeepMatches(accepts, pattern, visited);
    PrunedGlob(accepts, pattern, root, maxEntries, visited, truncated);
  }

  /** The visitor of `globEntries` over all visited paths. */
  method KeepMatches(accepts: Accepts, pattern: seq<Segment>, visited: seq<Path>) returns (hits: seq<Path>)
    ensures hits == Filter(visited, Keep(accepts, pattern))
  {
    hits := [];
    for i := 0 to |visited|
      invariant hits == Filter(visited[..i], Keep(accepts, pattern))
    {
      var matched := MatchPath(accepts, pattern, visited[i]);
      assert visited[..i + 1][..i] == visited[..i];
      if matched {
        hits := hits + [visited[i]];
      }
    }
    assert visited[..|visited|] == visited;
  }

  // ----- What a scan visits -----

  /** The path leads from the directory to an entry, and every directory on the way is open. */
  ghost predicate Leads(prefix: Path, children: seq<Entry>, descend: Test, p: Path)
    decreases children
  {
    exists i :: 0 <= i < |children| &&
      (|| p == prefix + [children[i].name]
       || (&& children[i].isDir && descend(prefix + [children[i].name])
           && Leads(prefix + [children[i].name], children[i].children, descend, p)))
  }

  lemma {:induction false} ListingIff(prefix: Path, children: seq<Entry>, n: nat, p: Path)
    requires n <= |children|
    ensures p in Listing(prefix, children, n) <==> exists i :: 0 <= i < n && p == prefix + [children[i].name]
  {
    if n > 0 {
      ListingIff(prefix, children, n - 1, p);
    }
  }

  /** By one of the first `n` children, and further than the child itself. */
  ghost predicate LeadsBelow(prefix: Path, children: seq<Entry>, descend: Test, p: Path, n: nat) {
    exists i :: 0 <= i < n <= |children| && EntersTo(prefix, children[i], descend, p)
  }

  ghost predicate EntersTo(prefix: Path, child: Entry, descend: Test, p: Path) {
    child.isDir && descend(prefix + [child.name]) && Leads(prefix + [child.name], child.children, descend, p)
  }

  lemma {:induction false} BelowIff(prefix: Path, children: seq<Entry>, n: nat, descend: Test, p: Path)
    requires n <= |children|
    ensures p in Below(prefix, children, n, descend) <==> LeadsBelow(prefix, children, descend, p, n)
    decreases children, n
  {
    if n > 0 {
      var child := children[n - 1];
      OrderIff(prefix + [child.name], child.children, descend, p);
      BelowIff(prefix, children, n - 1, descend, p);
      BelowStep(prefix, children, n, descend, p);
    }
  }

  lemma BelowStep(prefix: Path, children: seq<Entry>, n: nat, descend: Test, p: Path)
    requires 0 < n <= |children|
    ensures LeadsBelow(prefix, children, descend, p, n) <==>
      LeadsBelow(prefix, children, descend, p, n - 1) || EntersTo(prefix, children[n - 1], descend, p)
  {
  }

  /** A scan visits exactly the entries to which a path of open directories leads. */
  lemma {:induction false} OrderIff(prefix: Path, children: seq<Entry>, descend: Test, p: Path)
    ensures p in Order(prefix, children, descend) <==> Leads(prefix, children, descend, p)
    decreases children, |children| + 1
  {
    var n := |children|;
    ListingIff(prefix, children, n, p);
    BelowIff(prefix, children, n, descend, p);
    if p in Order(prefix, children, descend) {
      if p in Listing(prefix, children, n) {
        var i :| 0 <= i < n && p == prefix + [children[i].name];
        assert children[i].name == children[i].name;
      } else {
        var i :| 0 <= i < n && EntersTo(prefix, children[i], descend, p);
        assert children[i].isDir;
      }
    }
    if Leads(prefix, children, descend, p) && p !in Listing(prefix, children, n) {
      var i :| 0 <= i < n && children[i].isDir && descend(prefix + [children[i].name])
               && Leads(prefix + [children[i].name], children[i].children, descend, p);
      assert EntersTo(prefix, children[i], descend, p);
    }
  }

  /** No directory lists a name twice. */
  predicate NamesDiffer(children: seq<Entry>) {
    && (forall i, j :: 0 <= i < j < |children| ==> children[i].name != children[j].name)
    && (forall i :: 0 <= i < |children| ==> NamesDiffer(children[i].children))
  }

  predicate NoRepeats(paths: seq<Path>) {
    forall i, j :: 0 <= i < j < |paths| ==> paths[i] != paths[j]
  }

  lemma JoinNoRepeats(a: seq<Path>, b: seq<Path>)
    requires NoRepeats(a) && NoRepeats(b) && forall p :: p in a ==> p !in b
    ensures NoRepeats(a + b)
  {
    forall i, j | 0 <= i < j < |a + b| ensures (a + b)[i] != (a + b)[j] {
      if i < |a| <= j {
        assert a[i] in a && b[j - |a|] in b;
      }
    }
  }

  lemma {:induction false} ListingNoRepeats(prefix: Path, children: seq<Entry>, n: nat)
    requires n <= |children| && NamesDiffer(children)
    ensures NoRepeats(Listing(prefix, children, n))
    ensures forall p :: p in Listing(prefix, children, n) ==> |p| == |prefix| + 1
  {
    if n > 0 {
      ListingNoRepeats(prefix, children, n - 1);
      var last := prefix + [children[n - 1].name];
      ListingIff(prefix, children, n - 1, last);
      forall i | 0 <= i < n - 1 ensures last != prefix + [children[i].name] {
        assert last[|prefix|] == children[n - 1].name && (prefix + [children[i].name])[|prefix|] == children[i].name;
      }
      JoinNoRepeats(Listing(prefix, children, n - 1), [last]);
    }
  }

  /** What lies below the children is longer than their paths. */
  lemma {:induction false} BelowLonger(prefix: Path, children: seq<Entry>, n: nat, descend: Test)
    requires n <= |children|
    ensures forall p :: p in Below(prefix, children, n, descend) ==> |p| >= |prefix| + 2
    decreases n
  {
    if n > 0 {
      OrderBelow(prefix + [children[n - 1].name], children[n - 1].children, descend);
      BelowLonger(prefix, children, n - 1, descend);
    }
  }

  /** All paths go through `name` at depth `k`. */
  predicate Through(paths: seq<Path>, k: nat, name: string) {
    forall i :: 0 <= i < |paths| ==> |paths[i]| > k && paths[i][k] == name
  }

  /** None does, and all are deeper. */
  predicate Missing(paths: seq<Path>, k: nat, name: string) {
    forall i :: 0 <= i < |paths| ==> |paths[i]| > k && paths[i][k] != name
  }

  /** What lies below a child goes through its name. */
  lemma ThroughName(prefix: Path, child: Entry, descend: Test)
    ensures Through(Order(prefix + [child.name], child.children, descend), |prefix|, child.name)
  {
    var at := prefix + [child.name];
    var paths := Order(at, child.children, descend);
    OrderBelow(at, child.children, descend);
    forall i | 0 <= i < |paths| ensures |paths[i]| > |prefix| && paths[i][|prefix|] == child.name {
      assert paths[i] in paths;
      assert paths[i][|prefix|] == at[|prefix|];
    }
  }

  /** Below children of other names no path goes through `name`. */
  lemma {:induction false} BelowMisses(prefix: Path, children: seq<Entry>, n: nat, name: string, descend: Test)
    requires n <= |children| && (forall i :: 0 <= i < n ==> children[i].name != name)
    ensures Missing(Below(prefix, children, n, descend), |prefix|, name)
    decreases n
  {
    if n > 0 {
      ThroughName(prefix, children[n - 1], descend);
      BelowMisses(prefix, children, n - 1, name, descend);
    }
  }

  lemma ThroughThenMissing(a: seq<Path>, b: seq<Path>, k: nat, name: string)
    requires NoRepeats(a) && NoRepeats(b) && Through(a, k, name) && Missing(b, k, name)
    ensures NoRepeats(a + b)
  {
  }

  lemma {:induction false} BelowNoRepeats(prefix: Path, children: seq<Entry>, n: nat, descend: Test)
    requires n <= |children| && NamesDiffer(children)
    ensures NoRepeats(Below(prefix, children, n, descend))
    decreases children, n
  {
    if n > 0 {
      var child := children[n - 1];
      var first := Order(prefix + [child.name], child.children, descend);
      OrderNoRepeats(prefix + [child.name], child.children, descend);
      ThroughName(prefix, child, descend);
      BelowNoRepeats(prefix, children, n - 1, descend);
      BelowMisses(prefix, children, n - 1, child.name, descend);
      ThroughThenMissing(if Enters(prefix, child, descend) then first else [],
                         Below(prefix, children, n - 1, descend), |prefix|, child.name);
    }
  }

  /** It visits each of them once. */
  lemma {:induction false} OrderNoRepeats(prefix: Path, children: seq<Entry>, descend: Test)
    requires NamesDiffer(children)
    ensures NoRepeats(Order(prefix, children, descend))
    decreases children, |children| + 1
  {
    var n := |children|;
    ListingNoRepeats(prefix, children, n);
    BelowNoRepeats(prefix, children, n, descend);
    BelowLonger(prefix, children, n, descend);
    JoinNoRepeats(Listing(prefix, children, n), Below(prefix, children, n, descend));
  }

  lemma {:induction false} FilterIff(paths: seq<Path>, keep: Test, p: Path)
    ensures p in Filter(paths, keep) <==> p in paths && keep(p)
  {
    if paths != [] {
      FilterIff(paths[..|paths| - 1], keep, p);
      assert paths == paths[..|paths| - 1] + [paths[|paths| - 1]];
    }
  }

  /** So a glob that is not cut short finds exactly the entries of the tree that match. */
  lemma GlobFindsMatches(accepts: Accepts, pattern: seq<Segment>, root: seq<Entry>, p: Path)
    ensures p in Filter(Order([], root, Everywhere()), Keep(accepts, pattern)) <==>
      Leads([], root, Everywhere(), p) && GlobMatch(accepts, pattern, p)
  {
    FilterIff(Order([], root, Everywhere()), Keep(accepts, pattern), p);
    OrderIff([], root, Everywhere(), p);
  }
}
