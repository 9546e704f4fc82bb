/** Block headers as an Ethereum provider serves them: a partial map from hash to header in which
    every block points at its parent. */
module BlockTree {
  import opened Wrappers

  // Hashes are only ever compared for equality.
  type Hash = int

  datatype Header = Header(hash: Hash, parent: Hash, number: nat)

  type Tree = map<Hash, Header>

  /** Looking up a hash gives the header with that hash, and a child is one higher than its parent. */
  ghost predicate Consistent(t: Tree) {
    && (forall h | h in t :: t[h].hash == h)
    && (forall h, g | h in t && g in t && t[h].parent == g :: t[h].number == t[g].number + 1)
  }

  ghost predicate Known(t: Tree, b: Header) {
    b.hash in t && t[b.hash] == b
  }

  /** `b` can directly extend `a`. */
  predicate Follows(a: Header, b: Header) {
    b.number == a.number + 1 && b.parent == a.hash
  }

  /** The block at height `n` on the branch that ends in `b`. */
  ghost function AncestorAt(t: Tree, b: Header, n: nat): (r: Option<Header>)
    requires Consistent(t) && Known(t, b)
    ensures r.Some? ==> r.value.number == n && Known(t, r.value)
    decreases b.number
  {
    if n > b.number then None
    else if n == b.number then Some(b)
    else if b.parent !in t then None
    else AncestorAt(t, t[b.parent], n)
  }

  ghost predicate IsAncestor(t: Tree, a: Header, b: Header)
    requires Consistent(t) && Known(t, b)
  {
    AncestorAt(t, b, a.number) == Some(a)
  }

  /** Height `n` is on both branches, with the same block. */
  ghost predicate CommonAt(t: Tree, a: Header, b: Header, n: nat)
    requires Consistent(t) && Known(t, a) && Known(t, b)
  {
    AncestorAt(t, a, n).Some? && AncestorAt(t, a, n) == AncestorAt(t, b, n)
  }

  /** The highest block at or below height `n` that is on both branches, found by trying each height. */
  ghost function MeetBelow(t: Tree, a: Header, b: Header, n: nat): Option<Header>
    requires Consistent(t) && Known(t, a) && Known(t, b)
  {
    if CommonAt(t, a, b, n) then AncestorAt(t, a, n)
    else if n == 0 then None
    else MeetBelow(t, a, b, n - 1)
  }

  /** The highest common ancestor of two blocks. */
  ghost function Meet(t: Tree, a: Header, b: Header): Option<Header>
    requires Consistent(t) && Known(t, a) && Known(t, b)
  {
    MeetBelow(t, a, b, a.number)
  }

  lemma {:induction false} AncestorOfAncestor(t: Tree, b: Header, m: nat, n: nat)
    requires Consistent(t) && Known(t, b) && m <= n
    requires AncestorAt(t, b, n).Some?
    ensures AncestorAt(t, b, m) == AncestorAt(t, AncestorAt(t, b, n).value, m)
    decreases b.number
  {
    if n < b.number {
      AncestorOfAncestor(t, t[b.parent], m, n);
    }
  }

  /** A branch has a block at every height between two heights it reaches. */
  lemma {:induction false} BranchHasNoGaps(t: Tree, b: Header, m: nat, n: nat)
    requires Consistent(t) && Known(t, b) && m <= n <= b.number
    requires AncestorAt(t, b, m).Some?
    ensures AncestorAt(t, b, n).Some?
    decreases b.number
  {
    if n < b.number {
      BranchHasNoGaps(t, t[b.parent], m, n);
    }
  }

  /** One step down a branch. */
  lemma {:induction false} ParentOnBranch(t: Tree, b: Header, n: nat)
    requires Consistent(t) && Known(t, b)
    requires AncestorAt(t, b, n).Some? && AncestorAt(t, b, n).value.parent in t
    ensures n > 0
    ensures AncestorAt(t, b, n - 1) == Some(t[AncestorAt(t, b, n).value.parent])
  {
    var a := AncestorAt(t, b, n).value;
    assert t[a.parent].number == n - 1;
    AncestorOfAncestor(t, b, n - 1, n);
    assert AncestorAt(t, a, n - 1) == AncestorAt(t, t[a.parent], n - 1);
  }

  lemma {:induction false} MeetBelowIsHighest(t: Tree, a: Header, b: Header, n: nat)
    requires Consistent(t) && Known(t, a) && Known(t, b)
    ensures MeetBelow(t, a, b, n).None? ==> forall k: nat | k <= n :: !CommonAt(t, a, b, k)
    ensures MeetBelow(t, a, b, n).Some? ==>
              var m := MeetBelow(t, a, b, n).value;
              && m.number <= n && Known(t, m)
              && CommonAt(t, a, b, m.number) && AncestorAt(t, a, m.number) == Some(m)
              && forall k: nat | m.number < k <= n :: !CommonAt(t, a, b, k)
  {
    if !CommonAt(t, a, b, n) && n > 0 {
      MeetBelowIsHighest(t, a, b, n - 1);
    }
  }

  /** `Meet` is the highest common ancestor: it is on both branches, the branches agree from there
      down, and they share no block above it. */
  lemma MeetIsHighest(t: Tree, a: Header, b: Header)
    requires Consistent(t) && Known(t, a) && Known(t, b)
    ensures Meet(t, a, b).None? ==> forall k: nat :: !CommonAt(t, a, b, k)
    ensures Meet(t, a, b).Some? ==>
              var m := Meet(t, a, b).value;
              && Known(t, m) && IsAncestor(t, m, a) && IsAncestor(t, m, b)
              && (forall k: nat | k <= m.number :: AncestorAt(t, a, k) == AncestorAt(t, b, k) == AncestorAt(t, m, k))
              && (forall k: nat | m.number < k :: !CommonAt(t, a, b, k))
  {
    MeetBelowIsHighest(t, a, b, a.number);
    assert forall k: nat | k > a.number :: !CommonAt(t, a, b, k);
    if Meet(t, a, b).Some? {
      var m := Meet(t, a, b).value;
      forall k: nat | k <= m.number
        ensures AncestorAt(t, a, k) == AncestorAt(t, b, k) == AncestorAt(t, m, k)
      {
        AncestorOfAncestor(t, a, k, m.number);
        AncestorOfAncestor(t, b, k, m.number);
      }
    }
  }

  /** Nothing else has the defining property of the highest common ancestor. */
  lemma MeetIsUnique(t: Tree, a: Header, b: Header, m: Header)
    requires Consistent(t) && Known(t, a) && Known(t, b)
    requires IsAncestor(t, m, a) && IsAncestor(t, m, b)
    requires forall k: nat | m.number < k <= a.number :: !CommonAt(t, a, b, k)
    ensures Meet(t, a, b) == Some(m)
  {
    MeetIsHighest(t, a, b);
    assert CommonAt(t, a, b, m.number);
    assert CommonAt(t, a, b, Meet(t, a, b).value.number);
  }

  /** The blocks of the branch ending in `b` from height `from` up, lowest first. */
  ghost function Branch(t: Tree, b: Header, from: nat): (s: seq<Header>)
    requires Consistent(t) && Known(t, b)
    requires from <= b.number ==> AncestorAt(t, b, from).Some?
    ensures |s| == if from <= b.number then b.number - from + 1 else 0
    decreases b.number
  {
    if from > b.number then []
    else if from == b.number then [b]
    else Branch(t, t[b.parent], from) + [b]
  }

  lemma {:induction false} BranchAt(t: Tree, b: Header, from: nat, i: nat)
    requires Consistent(t) && Known(t, b)
    requires from <= b.number && AncestorAt(t, b, from).Some? && i <= b.number - from
    ensures AncestorAt(t, b, from + i) == Some(Branch(t, b, from)[i])
    decreases b.number
  {
    if from + i < b.number {
      BranchAt(t, t[b.parent], from, i);
    }
  }

  /** A branch is consecutive and linked by parent hash. */
  ghost predicate Linked(chain: seq<Header>) {
    forall i | 0 < i < |chain| :: Follows(chain[i - 1], chain[i])
  }

  /** The `i`-th block of a chain that is put on top of `start` extends the block before it. */
  predicate Extends(start: Header, chain: seq<Header>, i: nat)
    requires i < |chain|
  {
    Follows(if i == 0 then start else chain[i - 1], chain[i])
  }

  lemma {:induction false} BranchIsLinked(t: Tree, b: Header, from: nat)
    requires Consistent(t) && Known(t, b)
    requires from <= b.number && AncestorAt(t, b, from).Some?
    ensures Linked(Branch(t, b, from))
    ensures Branch(t, b, from)[b.number - from] == b
    decreases b.number
  {
    if from < b.number {
      BranchIsLinked(t, t[b.parent], from);
    }
  }
}
