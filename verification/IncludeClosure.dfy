/** The work list that follows include directives from one file to all files it depends on. */
module IncludeClosure {

  /** The files that each file includes directly. */
  type Includes<!T> = map<T, seq<T>>

  /** `direct.get(file, [])`. */
  function Direct<T>(direct: Includes<T>, file: T): seq<T> {
    if file in direct then direct[file] else []
  }

  /** A chain of direct includes. */
  ghost predicate Chain<T(!new)>(direct: Includes<T>, files: seq<T>) {
    forall i, j :: 0 <= i < j < |files| && j == i + 1 ==> files[j] in Direct(direct, files[i])
  }

  ghost predicate ChainTo<T(!new)>(direct: Includes<T>, files: seq<T>, start: T, file: T) {
    && files != [] && files[0] == start && files[|files| - 1] == file
    && Chain(direct, files)
  }

  ghost predicate Reachable<T(!new)>(direct: Includes<T>, start: T, file: T) {
    exists files :: ChainTo(direct, files, start, file)
  }

  lemma ReachesItself<T(!new)>(direct: Includes<T>, start: T)
    ensures Reachable(direct, start, start)
  {
    assert ChainTo(direct, [start], start, start);
  }

  lemma ReachesIncluded<T(!new)>(direct: Includes<T>, start: T, file: T)
    requires Reachable(direct, start, file)
    ensures forall next :: next in Direct(direct, file) ==> Reachable(direct, start, next)
  {
    var files :| ChainTo(direct, files, start, file);
    forall next | next in Direct(direct, file) ensures Reachable(direct, start, next) {
      assert ChainTo(direct, files + [next], start, next);
    }
  }

  ghost predicate Closed<T(!new)>(direct: Includes<T>, seen: set<T>) {
    forall x, y :: x in seen && y in Direct(direct, x) ==> y in seen
  }

  lemma {:induction false} ClosedHoldsChains<T(!new)>(direct: Includes<T>, seen: set<T>, files: seq<T>)
    requires Closed(direct, seen) && Chain(direct, files) && files != [] && files[0] in seen
    ensures files[|files| - 1] in seen
  {
    if |files| > 1 {
      ClosedHoldsChains(direct, seen, files[..|files| - 1]);
      assert files[|files| - 1] in Direct(direct, files[|files| - 2]);
    }
  }

  /** What a file in `seen` includes has been seen or waits on the stack. */
  ghost predicate Followed<T(!new)>(direct: Includes<T>, seen: set<T>, stack: seq<T>) {
    forall x, y :: x in seen && y in Direct(direct, x) ==> y in seen || y in stack
  }

  /** Every file that occurs. */
  function Files<T>(direct: Includes<T>, start: T): set<T> {
    {start} + set x, y | x in direct.Keys && y in direct[x] :: y
  }

  ghost predicate Known<T(!new)>(direct: Includes<T>, start: T, file: T) {
    file in Files(direct, start) && Reachable(direct, start, file)
  }

  lemma IncludedAreKnown<T(!new)>(direct: Includes<T>, start: T, file: T)
    requires Known(direct, start, file)
    ensures forall next :: next in Direct(direct, file) ==> Known(direct, start, next)
  {
    ReachesIncluded(direct, start, file);
  }

  ghost predicate Underway<T(!new)>(direct: Includes<T>, start: T, seen: set<T>, stack: seq<T>) {
    && start in seen && Followed(direct, seen, stack)
    && forall x :: x in seen || x in stack ==> Known(direct, start, x)
  }

  lemma Begins<T(!new)>(direct: Includes<T>, start: T)
    ensures Underway(direct, start, {start}, Direct(direct, start))
  {
    ReachesItself(direct, start);
    IncludedAreKnown(direct, start, start);
  }

  /** Popping a file that was seen, or visiting one that was not, keeps all of this. */
  lemma PopKeeps<T(!new)>(direct: Includes<T>, start: T, seen: set<T>, stack: seq<T>, p: T)
    requires Underway(direct, start, seen, stack + [p])
    ensures p in seen ==> Underway(direct, start, seen, stack)
    ensures Underway(direct, start, seen + {p}, stack + Direct(direct, p))
    ensures Known(direct, start, p)
  {
    assert p in stack + [p];
    IncludedAreKnown(direct, start, p);
    forall x, y | x in seen + {p} && y in Direct(direct, x) ensures y in seen + {p} || y in stack + Direct(direct, p) {
      assert x in seen ==> y in seen || y in stack + [p];
    }
    forall x | x in seen + {p} || x in stack + Direct(direct, p) ensures Known(direct, start, x) {
      assert x in stack ==> x in stack + [p];
    }
  }

  /** Main result: exactly the reachable files are returned, on any finite graph, with cycles and with
      files that are included several times. */
  method TransitiveClosure<T(!new, ==)>(start: T, direct: Includes<T>) returns (seen: set<T>)
    ensures forall file :: file in seen <==> Reachable(direct, start, file)
  {
    seen := {start};
    var stack := Direct(direct, start);
    Begins(direct, start);
    while stack != []
      invariant Underway(direct, start, seen, stack)
      decreases |Files(direct, start) - seen|, |stack|
    {
      var p := stack[|stack| - 1];
      assert stack == stack[..|stack| - 1] + [p];
      stack := stack[..|stack| - 1];
      PopKeeps(direct, start, seen, stack, p);
      if p in seen {
        continue;
      }
      OneLess(Files(direct, start), seen, p);
      seen := seen + {p};
      stack := stack + Direct(direct, p);
    }
    forall file | Reachable(direct, start, file) ensures file in seen {
      var chain :| ChainTo(direct, chain, start, file);
      ClosedHoldsChains(direct, seen, chain);
    }
  }

  lemma OneLess<T>(files: set<T>, seen: set<T>, p: T)
    requires p in files && p !in seen
    ensures |files - (seen + {p})| < |files - seen|
  {
    assert files - seen == (files - (seen + {p})) + {p};
  }
}
