/** The two Merkle trees of the shielded pool, and the window of association roots it recognises. */
module PoolTree {
  import opened Common
  import opened ChainOrder

  datatype LeafKind = Deposit | Change

  datatype Leaf = Leaf(
    kind: LeafKind, commitment: nat, aspLabel: Option<nat>, value: nat,
    precommitment: Option<nat>, spentNullifier: Option<nat>, pos: Pos, tx: string)

  const ASP_DEPTH: int := 32

  /**
   * The append-only tree, seen from outside: what was inserted, in order, and a root that is some
   * function of that.
   */
  class LeanIMT {
    const rootOf: seq<nat> -> nat
    var leaves: seq<nat>

    constructor (rootOf: seq<nat> -> nat)
      ensures leaves == [] && this.rootOf == rootOf
    {
      this.rootOf, leaves := rootOf, [];
    }

    method Insert(leaf: nat)
      modifies this
      ensures leaves == old(leaves) + [leaf]
    {
      leaves := leaves + [leaf];
    }

    method Root() returns (r: Option<nat>)
      ensures r == if leaves == [] then None else Some(rootOf(leaves))
    {
      return if leaves == [] then None else Some(rootOf(leaves));
    }
  }

  function Commitments(leaves: seq<Leaf>): seq<nat> {
    seq(|leaves|, i requires 0 <= i < |leaves| => leaves[i].commitment)
  }

  predicate Labelled(l: Leaf) {
    l.kind.Deposit? && l.aspLabel.Some?
  }

  /** The labels of the deposits, in order. */
  function Labels(leaves: seq<Leaf>): seq<nat> {
    if leaves == [] then []
    else
      var n := |leaves| - 1;
      if Labelled(leaves[n]) then Labels(leaves[..n]) + [leaves[n].aspLabel.value] else Labels(leaves[..n])
  }

  /** The root after each deposit, oldest first. */
  function RootsOf(rootOf: seq<nat> -> nat, labels: seq<nat>): seq<nat> {
    seq(|labels|, i requires 0 <= i < |labels| => rootOf(labels[..i + 1]))
  }

  /** JavaScript's `slice(start)`: a negative start counts from the end, and `-0` is `0`. */
  function JsSlice(s: seq<nat>, start: int): seq<nat> {
    if start < 0 then s[Max(0, |s| + start)..] else s[Min(start, |s|)..]
  }

  function History(rootOf: seq<nat> -> nat, labels: seq<nat>, depth: int): seq<nat> {
    JsSlice(RootsOf(rootOf, labels), -depth)
  }

  method BuildStateTree(rootOf: seq<nat> -> nat, leaves: seq<Leaf>) returns (tree: LeanIMT)
    ensures fresh(tree) && tree.rootOf == rootOf && tree.leaves == Commitments(leaves)
  {
    tree := new LeanIMT(rootOf);
    var i := 0;
    while i < |leaves|
      invariant 0 <= i <= |leaves| && fresh(tree) && tree.rootOf == rootOf
      invariant tree.leaves == Commitments(leaves[..i])
    {
      tree.Insert(leaves[i].commitment);
      i := i + 1;
    }
    assert leaves[..i] == leaves;
  }

  method BuildAspTree(rootOf: seq<nat> -> nat, leaves: seq<Leaf>) returns (tree: LeanIMT)
    ensures fresh(tree) && tree.rootOf == rootOf && tree.leaves == Labels(leaves)
  {
    tree := new LeanIMT(rootOf);
    var i := 0;
    while i < |leaves|
      invariant 0 <= i <= |leaves| && fresh(tree) && tree.rootOf == rootOf
      invariant tree.leaves == Labels(leaves[..i])
    {
      if leaves[i].kind.Deposit? && leaves[i].aspLabel.Some? {
        tree.Insert(leaves[i].aspLabel.value);
      }
      assert leaves[..i + 1][..i] == leaves[..i];
      i := i + 1;
    }
    assert leaves[..i] == leaves;
  }

  lemma OneMoreRoot(rootOf: seq<nat> -> nat, labels: seq<nat>, x: nat)
    ensures RootsOf(rootOf, labels + [x]) == RootsOf(rootOf, labels) + [rootOf(labels + [x])]
  {
    var more := RootsOf(rootOf, labels + [x]);
    forall j | 0 <= j < |more|
      ensures more[j] == (RootsOf(rootOf, labels) + [rootOf(labels + [x])])[j]
    {
      if j < |labels| {
        assert (labels + [x])[..j + 1] == labels[..j + 1];
      } else {
        assert (labels + [x])[..j + 1] == labels + [x];
      }
    }
  }

  method AspRootHistory(rootOf: seq<nat> -> nat, leaves: seq<Leaf>, depth: int) returns (roots: seq<nat>)
    ensures roots == History(rootOf, Labels(leaves), depth)
  {
    var tree := new LeanIMT(rootOf);
    roots := [];
    var i := 0;
    while i < |leaves|
      invariant 0 <= i <= |leaves| && fresh(tree) && tree.rootOf == rootOf
      invariant tree.leaves == Labels(leaves[..i]) && roots == RootsOf(rootOf, Labels(leaves[..i]))
    {
      assert leaves[..i + 1][..i] == leaves[..i];
      i := i + 1;
      if !leaves[i - 1].kind.Deposit? || leaves[i - 1].aspLabel.None? { continue; }
      tree.Insert(leaves[i - 1].aspLabel.value);
      ghost var before := Labels(leaves[..i - 1]);
      var root := tree.Root();
      OneMoreRoot(rootOf, before, leaves[i - 1].aspLabel.value);
      roots := roots + [root.value];
    }
    assert leaves[..i] == leaves;
    roots := JsSlice(roots, -depth);
  }

  // ---- the window ----------------------------------------------------------

  /** No two of the association sets these deposits went through have the same root. */
  ghost predicate PrefixRootsDiffer(rootOf: seq<nat> -> nat, labels: seq<nat>) {
    forall m, n :: 0 < m < n <= |labels| ==> rootOf(labels[..m]) != rootOf(labels[..n])
  }

  /**
   * A root served when `served` of today's deposits had been indexed is still recognised exactly
   * while fewer than `depth` deposits have followed.
   */
  lemma WindowIff(rootOf: seq<nat> -> nat, labels: seq<nat>, served: nat, depth: nat)
    requires 0 < served <= |labels| && 0 < depth
    ensures |labels| - served < depth ==> rootOf(labels[..served]) in History(rootOf, labels, depth)
    ensures PrefixRootsDiffer(rootOf, labels) ==>
              (rootOf(labels[..served]) in History(rootOf, labels, depth) <==> |labels| - served < depth)
  {
    var all, window := RootsOf(rootOf, labels), History(rootOf, labels, depth);
    var dropped := |all| - |window|;
    assert all[served - 1] == rootOf(labels[..served]);
    if |labels| - served < depth {
      assert window[served - 1 - dropped] == all[served - 1];
    }
    if PrefixRootsDiffer(rootOf, labels) && rootOf(labels[..served]) in window {
      var i :| 0 <= i < |window| && window[i] == rootOf(labels[..served]);
      assert window[i] == all[dropped + i] == rootOf(labels[..dropped + i + 1]);
      assert dropped + i + 1 == served;
    }
  }

  /**
   * Everything recognised is the root of some non-empty set of the first indexed deposits, and the
   * newest is the root of them all. With a depth of zero nothing is ever dropped.
   */
  lemma RecognisedRoots(rootOf: seq<nat> -> nat, labels: seq<nat>, depth: nat)
    ensures var window := History(rootOf, labels, depth);
            && |window| == (if depth == 0 then |labels| else Min(depth, |labels|))
            && (forall r :: r in window ==> exists n :: 0 < n <= |labels| && r == rootOf(labels[..n]))
            && (labels != [] ==> window[|window| - 1] == rootOf(labels))
  {
    var all, window := RootsOf(rootOf, labels), History(rootOf, labels, depth);
    var dropped := |all| - |window|;
    forall r | r in window
      ensures exists n :: 0 < n <= |labels| && r == rootOf(labels[..n])
    {
      var i :| 0 <= i < |window| && window[i] == r;
      assert r == rootOf(labels[..dropped + i + 1]);
    }
    assert labels[..|labels|] == labels;
  }

  lemma {:induction false} LabelsGrow(a: seq<Leaf>, b: seq<Leaf>)
    ensures Labels(a + b) == Labels(a) + Labels(b)
  {
    if b == [] {
      assert a + b == a;
    } else {
      var n := |b| - 1;
      assert (a + b)[..|a + b| - 1] == a + b[..n];
      LabelsGrow(a, b[..n]);
    }
  }

  /**
   * Read against the mirror: the root served from an earlier read of the leaves, with at least one
   * deposit in it, is recognised by a withdrawal against a later read while fewer than 32 deposits
   * came in between.
   */
  lemma ServedRootRecognised(rootOf: seq<nat> -> nat, earlier: seq<Leaf>, since: seq<Leaf>)
    requires Labels(earlier) != [] && |Labels(since)| < ASP_DEPTH
    ensures rootOf(Labels(earlier)) in History(rootOf, Labels(earlier + since), ASP_DEPTH)
  {
    LabelsGrow(earlier, since);
    var now := Labels(earlier + since);
    assert now[..|Labels(earlier)|] == Labels(earlier);
    WindowIff(rootOf, now, |Labels(earlier)|, ASP_DEPTH);
  }
}
