/**
 * Day 8: junction boxes at integer points in space are wired together, closest
 * pair first, and a union-find structure tracks the circuits they form. Part 1
 * makes a fixed number of connection attempts and multiplies the sizes of the
 * three largest circuits; part 2 connects until one circuit remains and
 * multiplies the x coordinates of the last pair joined.
 */
module Day08 {
  import opened Wrappers
  import Text
  import Sorting

  // ----------------------------------------------------------------------------
  // The union-find forest as a value

  /** The three lists of a `DisjointSet`. */
  datatype Forest = Forest(parent: seq<nat>, rank: seq<nat>, size: seq<nat>)

  /** The largest rank: a bound that makes the climb to a root finite. */
  function MaxRank(rank: seq<nat>): (m: nat)
    ensures forall i :: 0 <= i < |rank| ==> rank[i] <= m
  {
    if rank == [] then 0
    else
      var m := MaxRank(rank[1..]);
      assert forall i :: 1 <= i < |rank| ==> rank[i] == rank[1..][i - 1];
      if rank[0] > m then rank[0] else m
  }

  /**
   * The three lists have one entry per element, parent links stay inside the
   * forest, and a non-root has a smaller rank than its parent, which union by
   * rank keeps and which makes `find` terminate.
   */
  predicate Shaped(f: Forest)
  {
    |f.rank| == |f.parent| && |f.size| == |f.parent| &&
    forall i :: 0 <= i < |f.parent| ==>
      f.parent[i] < |f.parent| && (f.parent[i] != i ==> f.rank[i] < f.rank[f.parent[i]])
  }

  /** The root `find(x)` reaches: follow parent links until a self-parented node. */
  function Root(f: Forest, x: nat): (r: nat)
    requires Shaped(f) && x < |f.parent|
    ensures r < |f.parent| && f.parent[r] == r
    ensures r == x || f.rank[x] < f.rank[r]
    decreases MaxRank(f.rank) - f.rank[x]
  {
    if f.parent[x] == x then x else Root(f, f.parent[x])
  }

  /**
   * The forest after `find(x)` with path compression: every node on the path
   * from `x` now points straight at the root; the ranks and sizes are untouched.
   */
  function Compress(f: Forest, x: nat): (g: Forest)
    requires Shaped(f) && x < |f.parent|
    ensures Shaped(g) && g.rank == f.rank && g.size == f.size && |g.parent| == |f.parent|
    ensures g.parent[x] == Root(f, x)
    ensures forall y :: 0 <= y < |f.parent| ==> g.parent[y] == f.parent[y] || g.parent[y] == Root(f, y)
    decreases MaxRank(f.rank) - f.rank[x]
  {
    if f.parent[x] == x then f
    else
      var g := Compress(f, f.parent[x]);
      g.(parent := g.parent[x := Root(f, x)])
  }

  /**
   * Re-pointing nodes straight at their roots changes no node's root: whatever
   * `find` compresses, every element stays in its circuit.
   */
  lemma {:induction false} RootsAgree(f: Forest, g: Forest, y: nat)
    requires Shaped(f) && Shaped(g) && g.rank == f.rank && |g.parent| == |f.parent| && y < |f.parent|
    requires forall z :: 0 <= z < |f.parent| ==> g.parent[z] == f.parent[z] || g.parent[z] == Root(f, z)
    ensures Root(g, y) == Root(f, y)
    decreases MaxRank(f.rank) - f.rank[y]
  {
    if g.parent[y] != y {
      var p := g.parent[y];
      if p == f.parent[y] {
        RootsAgree(f, g, p);
      } else {
        var r := Root(f, y);
        assert g.parent[r] == r;
      }
    }
  }

  /** `find(x)` compresses without moving any element to another circuit. */
  lemma CompressKeepsRoots(f: Forest, x: nat, y: nat)
    requires Shaped(f) && x < |f.parent| && y < |f.parent|
    ensures Root(Compress(f, x), y) == Root(f, y)
  {
    RootsAgree(f, Compress(f, x), y);
  }

  /** The roots: one per circuit. */
  ghost function RootSet(f: Forest): set<nat>
  {
    set i | 0 <= i < |f.parent| && f.parent[i] == i
  }

  /** The number of circuits. */
  ghost function NumRoots(f: Forest): nat
  {
    |RootSet(f)|
  }

  /** `find` makes no root a non-root and no non-root a root. */
  lemma CompressKeepsRootSet(f: Forest, x: nat)
    requires Shaped(f) && x < |f.parent|
    ensures RootSet(Compress(f, x)) == RootSet(f)
  {
    var g := Compress(f, x);
    forall i | 0 <= i < |f.parent| ensures g.parent[i] == i <==> f.parent[i] == i {
      var r := Root(f, i);
    }
  }

  /** The elements of the circuit whose root is `r`. */
  ghost function Members(f: Forest, r: nat): set<nat>
    requires Shaped(f)
  {
    set i | 0 <= i < |f.parent| && Root(f, i) == r
  }

  /** The size stored at each root counts the elements of its circuit. */
  ghost predicate SizesOk(f: Forest)
    requires Shaped(f)
  {
    forall r :: 0 <= r < |f.parent| && f.parent[r] == r ==> f.size[r] == |Members(f, r)|
  }

  /** What a `DisjointSet` keeps at all times. */
  ghost predicate Consistent(f: Forest)
  {
    Shaped(f) && SizesOk(f)
  }

  /** `find` keeps the stored sizes right. */
  lemma CompressConsistent(f: Forest, x: nat)
    requires Consistent(f) && x < |f.parent|
    ensures Consistent(Compress(f, x))
  {
    var g := Compress(f, x);
    CompressKeepsRootSet(f, x);
    forall r | 0 <= r < |f.parent| && g.parent[r] == r ensures g.size[r] == |Members(g, r)| {
      assert r in RootSet(g);
      forall i | 0 <= i < |f.parent| ensures Root(g, i) == Root(f, i) {
        CompressKeepsRoots(f, x, i);
      }
      assert Members(g, r) == Members(f, r);
    }
  }

  // ----------------------------------------------------------------------------
  // union

  /** The root that survives a merge of the circuits rooted at `a` and `b`: the higher rank, `a` on a tie. */
  function Winner(f: Forest, a: nat, b: nat): nat
    requires |f.rank| == |f.parent| && a < |f.parent| && b < |f.parent|
  {
    if f.rank[a] < f.rank[b] then b else a
  }

  /** The root that goes under in that merge. */
  function Loser(f: Forest, a: nat, b: nat): nat
    requires |f.rank| == |f.parent| && a < |f.parent| && b < |f.parent|
  {
    if f.rank[a] < f.rank[b] then a else b
  }

  /** Hang the root `l` under the root `w`, add its size to `w` and raise `w`'s rank on a tie. */
  function Attach(f: Forest, w: nat, l: nat): (g: Forest)
    requires Shaped(f) && w < |f.parent| && l < |f.parent| && w != l
    requires f.parent[w] == w && f.parent[l] == l && f.rank[l] <= f.rank[w]
    ensures Shaped(g) && |g.parent| == |f.parent|
  {
    var bump := if f.rank[w] == f.rank[l] then 1 else 0;
    Forest(f.parent[l := w], f.rank[w := f.rank[w] + bump], f.size[w := f.size[w] + f.size[l]])
  }

  /** `find` leaves a root a root. */
  lemma CompressKeepsRoot(f: Forest, x: nat, r: nat)
    requires Shaped(f) && x < |f.parent| && r < |f.parent| && f.parent[r] == r
    ensures Compress(f, x).parent[r] == r
  {
  }

  /** The forest after `union`'s two `find`s, on `x` and then on `y`. */
  function Found(f: Forest, x: nat, y: nat): (g: Forest)
    requires Shaped(f) && x < |f.parent| && y < |f.parent|
    ensures Shaped(g) && g.rank == f.rank && g.size == f.size && |g.parent| == |f.parent|
  {
    Compress(Compress(f, x), y)
  }

  /**
   * `union(x, y)`: find both roots (compressing both paths), stop if they are
   * the same, otherwise attach the lower-rank root under the other. The forest
   * afterwards, and whether two circuits merged.
   */
  function Link(f: Forest, x: nat, y: nat): (res: (Forest, bool))
    requires Shaped(f) && x < |f.parent| && y < |f.parent|
    ensures Shaped(res.0) && |res.0.parent| == |f.parent|
  {
    var rootX := Root(f, x);
    var rootY := Root(Compress(f, x), y);
    var g := Found(f, x, y);
    if rootX == rootY then (g, false)
    else
      CompressKeepsRoot(f, x, rootX);
      CompressKeepsRoot(Compress(f, x), y, rootX);
      CompressKeepsRoot(Compress(f, x), y, rootY);
      (Attach(g, Winner(g, rootX, rootY), Loser(g, rootX, rootY)), true)
  }

  /** Attaching `l` under `w` sends `l`'s circuit to `w` and leaves every other element's root alone. */
  lemma {:induction false} AttachRoots(f: Forest, w: nat, l: nat, z: nat)
    requires Shaped(f) && w < |f.parent| && l < |f.parent| && w != l
    requires f.parent[w] == w && f.parent[l] == l && f.rank[l] <= f.rank[w]
    requires z < |f.parent|
    ensures Root(Attach(f, w, l), z) == if Root(f, z) == l then w else Root(f, z)
    decreases MaxRank(f.rank) - f.rank[z]
  {
    var g := Attach(f, w, l);
    if f.parent[z] != z {
      AttachRoots(f, w, l, f.parent[z]);
    } else if z == l {
      assert g.parent[w] == w;
    }
  }

  /** Where `z`'s root ends up after `union(x, y)`: the losing root's circuit moves to the winner. */
  ghost function LinkedRoot(f: Forest, x: nat, y: nat, z: nat): nat
    requires Shaped(f) && x < |f.parent| && y < |f.parent| && z < |f.parent|
  {
    var a := Root(f, x);
    var b := Root(f, y);
    if a != b && Root(f, z) == Loser(f, a, b) then Winner(f, a, b) else Root(f, z)
  }

  /** `union`'s two `find`s move no element to another circuit and change no root. */
  lemma BothFound(f: Forest, x: nat, y: nat)
    requires Shaped(f) && x < |f.parent| && y < |f.parent|
    ensures Root(Compress(f, x), y) == Root(f, y)
    ensures forall z :: 0 <= z < |f.parent| ==> Root(Found(f, x, y), z) == Root(f, z)
    ensures RootSet(Found(f, x, y)) == RootSet(f)
  {
    var f1 := Compress(f, x);
    CompressKeepsRoots(f, x, y);
    forall z | 0 <= z < |f.parent| ensures Root(Compress(f1, y), z) == Root(f, z) {
      CompressKeepsRoots(f, x, z);
      CompressKeepsRoots(f1, y, z);
    }
    CompressKeepsRootSet(f, x);
    CompressKeepsRootSet(f1, y);
  }

  /** `union` reports a merge exactly when `x` and `y` had different roots; without a merge it only compresses. */
  lemma LinkMerges(f: Forest, x: nat, y: nat)
    requires Shaped(f) && x < |f.parent| && y < |f.parent|
    ensures Link(f, x, y).1 <==> Root(f, x) != Root(f, y)
    ensures !Link(f, x, y).1 ==> Link(f, x, y).0 == Found(f, x, y)
  {
    BothFound(f, x, y);
  }

  /** A real merge attaches the loser among the two roots under the winner, in the forest both `find`s left. */
  lemma LinkAttaches(f: Forest, x: nat, y: nat)
    requires Shaped(f) && x < |f.parent| && y < |f.parent| && Root(f, x) != Root(f, y)
    ensures var a, b, g := Root(f, x), Root(f, y), Found(f, x, y);
      g.parent[a] == a && g.parent[b] == b &&
      Link(f, x, y) == (Attach(g, Winner(f, a, b), Loser(f, a, b)), true)
  {
    BothFound(f, x, y);
    CompressKeepsRoot(f, x, Root(f, x));
    CompressKeepsRoot(Compress(f, x), y, Root(f, x));
    CompressKeepsRoot(Compress(f, x), y, Root(f, y));
  }

  /** After `union(x, y)` every element's root is the one `LinkedRoot` names. */
  lemma LinkRoots(f: Forest, x: nat, y: nat, z: nat)
    requires Shaped(f) && x < |f.parent| && y < |f.parent| && z < |f.parent|
    ensures Root(Link(f, x, y).0, z) == LinkedRoot(f, x, y, z)
  {
    BothFound(f, x, y);
    var a := Root(f, x);
    var b := Root(f, y);
    if a != b {
      LinkAttaches(f, x, y);
      AttachRoots(Found(f, x, y), Winner(f, a, b), Loser(f, a, b), z);
    }
  }

  /** `a` and `b` are in the same circuit. */
  ghost predicate Joined(f: Forest, a: nat, b: nat)
    requires Shaped(f) && a < |f.parent| && b < |f.parent|
  {
    Root(f, a) == Root(f, b)
  }

  /**
   * `union(x, y)` as a change of partition: two elements share a circuit
   * afterwards exactly when they did before, or one was with `x` and the other
   * with `y`. In particular `x` and `y` end up joined.
   */
  lemma LinkJoins(f: Forest, x: nat, y: nat, a: nat, b: nat)
    requires Shaped(f) && x < |f.parent| && y < |f.parent| && a < |f.parent| && b < |f.parent|
    ensures Joined(Link(f, x, y).0, a, b) <==>
      Joined(f, a, b) || (Joined(f, a, x) && Joined(f, b, y)) || (Joined(f, a, y) && Joined(f, b, x))
  {
    LinkRoots(f, x, y, a);
    LinkRoots(f, x, y, b);
  }

  /** A merge removes exactly the losing root from the set of roots; no merge keeps the set. */
  lemma LinkRootSet(f: Forest, x: nat, y: nat)
    requires Shaped(f) && x < |f.parent| && y < |f.parent|
    ensures var a, b := Root(f, x), Root(f, y);
      RootSet(Link(f, x, y).0) == if a != b then RootSet(f) - {Loser(f, a, b)} else RootSet(f)
  {
    BothFound(f, x, y);
    var a := Root(f, x);
    var b := Root(f, y);
    if a != b {
      LinkAttaches(f, x, y);
      AttachRootSet(Found(f, x, y), Winner(f, a, b), Loser(f, a, b));
    }
  }

  /** Hanging `l` under `w` takes `l` out of the roots and no other. */
  lemma AttachRootSet(g: Forest, w: nat, l: nat)
    requires Shaped(g) && w < |g.parent| && l < |g.parent| && w != l
    requires g.parent[w] == w && g.parent[l] == l && g.rank[l] <= g.rank[w]
    ensures RootSet(Attach(g, w, l)) == RootSet(g) - {l}
  {
    var h := Attach(g, w, l);
    forall i | 0 <= i < |g.parent| ensures (i in RootSet(h)) <==> (i in RootSet(g) && i != l) {
      if i != l {
        assert h.parent[i] == g.parent[i];
      }
    }
  }

  /** A merge lowers the number of circuits by exactly one; a no-op keeps it. */
  lemma LinkCount(f: Forest, x: nat, y: nat)
    requires Shaped(f) && x < |f.parent| && y < |f.parent|
    ensures NumRoots(Link(f, x, y).0) == if Link(f, x, y).1 then NumRoots(f) - 1 else NumRoots(f)
  {
    LinkMerges(f, x, y);
    LinkRootSet(f, x, y);
    var a := Root(f, x);
    var b := Root(f, y);
    if a != b {
      assert Loser(f, a, b) in RootSet(f);
    }
  }

  /** The circuit of a root after `union(x, y)`: the winner's absorbs the loser's, the others stay. */
  lemma LinkMembers(f: Forest, x: nat, y: nat, r: nat)
    requires Shaped(f) && x < |f.parent| && y < |f.parent| && r < |f.parent|
    requires Root(f, x) != Root(f, y)
    ensures var a, b := Root(f, x), Root(f, y);
      Members(Link(f, x, y).0, r) ==
        if r == Winner(f, a, b) then Members(f, r) + Members(f, Loser(f, a, b))
        else if r == Loser(f, a, b) then {}
        else Members(f, r)
  {
    var h := Link(f, x, y).0;
    forall z | 0 <= z < |f.parent| ensures Root(h, z) == LinkedRoot(f, x, y, z) {
      LinkRoots(f, x, y, z);
    }
  }

  /** One root's stored size is still right after a real merge. */
  lemma LinkSizeAt(f: Forest, x: nat, y: nat, r: nat)
    requires Consistent(f) && x < |f.parent| && y < |f.parent| && r < |f.parent|
    requires Root(f, x) != Root(f, y)
    requires Link(f, x, y).0.parent[r] == r
    ensures Link(f, x, y).0.size[r] == |Members(Link(f, x, y).0, r)|
  {
    var a, b := Root(f, x), Root(f, y);
    var w, l := Winner(f, a, b), Loser(f, a, b);
    LinkRootSet(f, x, y);
    LinkAttaches(f, x, y);
    assert r in RootSet(Link(f, x, y).0);
    LinkMembers(f, x, y, r);
    if r == w {
      DisjointMembers(f, w, l);
    }
  }

  /** Two different roots have disjoint circuits, so their sizes add up. */
  lemma DisjointMembers(f: Forest, a: nat, b: nat)
    requires Shaped(f) && a != b
    ensures |Members(f, a) + Members(f, b)| == |Members(f, a)| + |Members(f, b)|
  {
    assert Members(f, a) * Members(f, b) == {};
  }

  /** `union` keeps every root's stored size equal to its circuit's size. */
  lemma LinkConsistent(f: Forest, x: nat, y: nat)
    requires Consistent(f) && x < |f.parent| && y < |f.parent|
    ensures Consistent(Link(f, x, y).0)
  {
    var h := Link(f, x, y).0;
    if Root(f, x) != Root(f, y) {
      forall r | 0 <= r < |f.parent| && h.parent[r] == r ensures h.size[r] == |Members(h, r)| {
        LinkSizeAt(f, x, y, r);
      }
    } else {
      LinkMerges(f, x, y);
      BothFound(f, x, y);
      forall r | 0 <= r < |f.parent| && h.parent[r] == r ensures h.size[r] == |Members(h, r)| {
        assert r in RootSet(h);
        assert Members(h, r) == Members(f, r);
      }
    }
  }

  // ----------------------------------------------------------------------------
  // A fresh structure, and the circuit sizes

  /** `DisjointSet(n)`: every element its own parent, rank 0, size 1. */
  function Init(n: nat): (f: Forest)
    ensures Shaped(f) && |f.parent| == n
    ensures forall i :: 0 <= i < n ==> f.parent[i] == i && f.rank[i] == 0 && f.size[i] == 1
  {
    Forest(seq(n, i => i), seq(n, i => 0), seq(n, i => 1))
  }

  /** The indices below `n`. */
  ghost function Indices(n: nat): (s: set<nat>)
    ensures forall i: int :: i in s <==> 0 <= i < n
  {
    if n == 0 then {} else Indices(n - 1) + {n - 1}
  }

  lemma {:induction false} IndicesCard(n: nat)
    ensures |Indices(n)| == n
  {
    if n > 0 {
      IndicesCard(n - 1);
    }
  }

  /** A fresh structure has `n` singleton circuits with correct sizes. */
  lemma InitConsistent(n: nat)
    ensures Consistent(Init(n)) && NumRoots(Init(n)) == n
    ensures forall i :: 0 <= i < n ==> Root(Init(n), i) == i
  {
    var f := Init(n);
    forall r | 0 <= r < n ensures f.size[r] == |Members(f, r)| {
      assert Members(f, r) == {r};
    }
    assert RootSet(f) == Indices(n);
    IndicesCard(n);
  }

  /** The sizes stored at the roots below `k`, in index order: the list part 1 collects. */
  function RootSizesBelow(f: Forest, k: nat): (sizes: seq<nat>)
    requires Shaped(f) && k <= |f.parent|
    ensures |sizes| <= k
  {
    if k == 0 then []
    else RootSizesBelow(f, k - 1) + (if f.parent[k - 1] == k - 1 then [f.size[k - 1]] else [])
  }

  /** The sizes of all circuits, in the order of their roots. */
  function RootSizes(f: Forest): seq<nat>
    requires Shaped(f)
  {
    RootSizesBelow(f, |f.parent|)
  }

  function Sum(s: seq<nat>): nat
  {
    if s == [] then 0 else Sum(s[..|s| - 1]) + s[|s| - 1]
  }

  /** The elements whose root is below `k`. */
  ghost function RootedBelow(f: Forest, k: nat): set<nat>
    requires Shaped(f)
  {
    set i | 0 <= i < |f.parent| && Root(f, i) < k
  }

  /** The roots below `k`. */
  ghost function RootsBelow(f: Forest, k: nat): set<nat>
  {
    set i | 0 <= i < k && i < |f.parent| && f.parent[i] == i
  }

  /** Moving the bound past `k - 1` adds its circuit if it is a root, and nothing otherwise. */
  lemma RootedBelowStep(f: Forest, k: nat)
    requires Shaped(f) && 0 < k <= |f.parent|
    ensures f.parent[k - 1] == k - 1 ==>
      RootedBelow(f, k) == RootedBelow(f, k - 1) + Members(f, k - 1) &&
      RootedBelow(f, k - 1) * Members(f, k - 1) == {} &&
      RootsBelow(f, k) == RootsBelow(f, k - 1) + {k - 1} && k - 1 !in RootsBelow(f, k - 1)
    ensures f.parent[k - 1] != k - 1 ==>
      RootedBelow(f, k) == RootedBelow(f, k - 1) && RootsBelow(f, k) == RootsBelow(f, k - 1)
  {
    assert forall i :: 0 <= i < |f.parent| && f.parent[k - 1] != k - 1 ==> Root(f, i) != k - 1;
  }

  /** One more index adds as much to the sum of root sizes as to the elements counted. */
  lemma RootSizesStep(f: Forest, k: nat)
    requires Consistent(f) && 0 < k <= |f.parent|
    ensures Sum(RootSizesBelow(f, k)) - Sum(RootSizesBelow(f, k - 1)) ==
            |RootedBelow(f, k)| - |RootedBelow(f, k - 1)|
  {
    RootedBelowStep(f, k);
    var prev := RootSizesBelow(f, k - 1);
    if f.parent[k - 1] == k - 1 {
      var s := RootSizesBelow(f, k);
      assert s[..|s| - 1] == prev;
      assert f.size[k - 1] == |Members(f, k - 1)|;
    } else {
      assert RootSizesBelow(f, k) == prev;
    }
  }

  lemma {:induction false} RootSizesBelowSum(f: Forest, k: nat)
    requires Consistent(f) && k <= |f.parent|
    ensures Sum(RootSizesBelow(f, k)) == |RootedBelow(f, k)|
  {
    if k > 0 {
      RootSizesBelowSum(f, k - 1);
      RootSizesStep(f, k);
    }
  }

  lemma {:induction false} RootSizesBelowCount(f: Forest, k: nat)
    requires Consistent(f) && k <= |f.parent|
    ensures |RootSizesBelow(f, k)| == |RootsBelow(f, k)|
    ensures forall m :: 0 <= m < |RootSizesBelow(f, k)| ==> RootSizesBelow(f, k)[m] >= 1
  {
    RootSizesBelowLength(f, k);
    RootSizesBelowPositive(f, k);
  }

  lemma {:induction false} RootSizesBelowLength(f: Forest, k: nat)
    requires Shaped(f) && k <= |f.parent|
    ensures |RootSizesBelow(f, k)| == |RootsBelow(f, k)|
  {
    if k > 0 {
      RootSizesBelowLength(f, k - 1);
      RootsBelowStep(f, k);
    }
  }

  /** Moving the bound past `k - 1` adds it to the roots below if it is one. */
  lemma RootsBelowStep(f: Forest, k: nat)
    requires 0 < k <= |f.parent|
    ensures |RootsBelow(f, k)| == |RootsBelow(f, k - 1)| + if f.parent[k - 1] == k - 1 then 1 else 0
  {
    if f.parent[k - 1] == k - 1 {
      assert RootsBelow(f, k) == RootsBelow(f, k - 1) + {k - 1};
    } else {
      assert RootsBelow(f, k) == RootsBelow(f, k - 1);
    }
  }

  lemma {:induction false} RootSizesBelowPositive(f: Forest, k: nat)
    requires Consistent(f) && k <= |f.parent|
    ensures forall m :: 0 <= m < |RootSizesBelow(f, k)| ==> RootSizesBelow(f, k)[m] >= 1
  {
    if k > 0 {
      RootSizesBelowPositive(f, k - 1);
      if f.parent[k - 1] == k - 1 {
        assert k - 1 in Members(f, k - 1);
      }
    }
  }

  /**
   * The sizes stored at the roots sum to the number of elements, there is one
   * per circuit, and none is zero.
   */
  lemma RootSizesSum(f: Forest)
    requires Consistent(f)
    ensures Sum(RootSizes(f)) == |f.parent|
    ensures |RootSizes(f)| == NumRoots(f)
    ensures forall m :: 0 <= m < |RootSizes(f)| ==> RootSizes(f)[m] >= 1
  {
    RootSizesBelowSum(f, |f.parent|);
    RootSizesBelowCount(f, |f.parent|);
    assert RootedBelow(f, |f.parent|) == Indices(|f.parent|);
    assert RootsBelow(f, |f.parent|) == RootSet(f);
    IndicesCard(|f.parent|);
  }

  // ----------------------------------------------------------------------------
  // A run of unions

  /** A candidate connection `(distance, i, j)`, ordered as Python orders tuples. */
  type Edge = (int, nat, nat)

  /** Both ends of every edge are elements of an `n`-element structure. */
  predicate EdgesIn(es: seq<Edge>, n: nat)
  {
    forall k :: 0 <= k < |es| ==> es[k].1 < n && es[k].2 < n
  }

  /** The forest after calling `union(i, j)` for the edges in order. */
  function Replay(f: Forest, es: seq<Edge>): (g: Forest)
    requires Shaped(f) && EdgesIn(es, |f.parent|)
    ensures Shaped(g) && |g.parent| == |f.parent|
    decreases |es|
  {
    if es == [] then f
    else
      var last := es[|es| - 1];
      Link(Replay(f, es[..|es| - 1]), last.1, last.2).0
  }

  /** How many of those `union` calls merged two circuits. */
  function Merges(f: Forest, es: seq<Edge>): nat
    requires Shaped(f) && EdgesIn(es, |f.parent|)
    decreases |es|
  {
    if es == [] then 0
    else
      var last := es[|es| - 1];
      Merges(f, es[..|es| - 1]) + if Link(Replay(f, es[..|es| - 1]), last.1, last.2).1 then 1 else 0
  }

  /**
   * Across any run of unions the stored sizes stay right (so the root sizes sum
   * to `n`), and every merge removed exactly one circuit.
   */
  lemma {:induction false} ReplayCount(f: Forest, es: seq<Edge>)
    requires Consistent(f) && EdgesIn(es, |f.parent|)
    ensures Consistent(Replay(f, es))
    ensures NumRoots(Replay(f, es)) + Merges(f, es) == NumRoots(f)
    decreases |es|
  {
    if es != [] {
      var init := es[..|es| - 1];
      var last := es[|es| - 1];
      ReplayCount(f, init);
      LinkConsistent(Replay(f, init), last.1, last.2);
      LinkCount(Replay(f, init), last.1, last.2);
    }
  }

  /** Replaying one edge more is one more `union`. */
  lemma ReplayStep(f: Forest, es: seq<Edge>, k: nat)
    requires Shaped(f) && EdgesIn(es, |f.parent|) && k < |es|
    ensures EdgesIn(es[..k], |f.parent|) && EdgesIn(es[..k + 1], |f.parent|)
    ensures Replay(f, es[..k + 1]) == Link(Replay(f, es[..k]), es[k].1, es[k].2).0
    ensures Merges(f, es[..k + 1]) ==
      Merges(f, es[..k]) + if Link(Replay(f, es[..k]), es[k].1, es[k].2).1 then 1 else 0
  {
    assert es[..k + 1][..k] == es[..k];
  }

  // ----------------------------------------------------------------------------
  // The mutable structure

  /** `DisjointSet`: the three lists, updated in place by `find` and `union`. */
  class DisjointSet {
    var parent: seq<nat>
    var rank: seq<nat>
    var size: seq<nat>

    /** The lists as a value. */
    ghost function State(): Forest
      reads this
    {
      Forest(parent, rank, size)
    }

    /** Shaped, with every root's size equal to its circuit's. */
    ghost predicate Valid()
      reads this
    {
      Consistent(State())
    }

    /** `n` singleton circuits. */
    constructor (n: nat)
      ensures State() == Init(n) && Valid()
    {
      parent := seq(n, i => i);
      rank := seq(n, i => 0);
      size := seq(n, i => 1);
      new;
      InitConsistent(n);
    }

    /** `find(x)`: the root of `x`, pointing every node on the way straight at it. */
    method Find(x: nat) returns (r: nat)
      requires Shaped(State()) && x < |parent|
      modifies this
      ensures State() == Compress(old(State()), x)
      ensures r == Root(old(State()), x) && parent[x] == r && parent[r] == r
      decreases MaxRank(rank) - rank[x]
    {
      ghost var f := State();
      if parent[x] != x {
        var p := Find(parent[x]);
        parent := parent[x := p];
      }
      r := parent[x];
    }

    /**
     * `union(x, y)`: find both roots; if they differ, attach the lower-rank root
     * under the other, add its size and raise the survivor's rank on a tie.
     */
    method Union(x: nat, y: nat) returns (merged: bool)
      requires Valid() && x < |parent| && y < |parent|
      modifies this
      ensures Valid() && (State(), merged) == Link(old(State()), x, y)
    {
      ghost var f := State();
      var rootX := Find(x);
      var rootY := Find(y);
      assert State() == Found(f, x, y);
      BothFound(f, x, y);
      if rootX == rootY {
        LinkMerges(f, x, y);
        LinkConsistent(f, x, y);
        return false;
      }
      LinkAttaches(f, x, y);
      Hang(rootX, rootY);
      LinkConsistent(f, x, y);
      merged := true;
    }

    /**
     * The merging half of `union`, on two distinct roots: the lower-rank one
     * goes under the other, whose size grows by it and whose rank rises on a tie.
     */
    method Hang(rootX: nat, rootY: nat)
      requires Shaped(State()) && rootX < |parent| && rootY < |parent| && rootX != rootY
      requires parent[rootX] == rootX && parent[rootY] == rootY
      modifies this
      ensures State() == Attach(old(State()), Winner(old(State()), rootX, rootY), Loser(old(State()), rootX, rootY))
    {
      var upper, lower := rootX, rootY;
      if rank[upper] < rank[lower] {
        upper, lower := lower, upper;
      }
      parent := parent[lower := upper];
      size := size[upper := size[upper] + size[lower]];
      if rank[upper] == rank[lower] {
        rank := rank[upper := rank[upper] + 1];
      }
    }
  }

  // ----------------------------------------------------------------------------
  // parse_coordinates and the distance

  /** `map(int, fields)`: every field parsed as an integer, or nothing if one fails. */
  function ParseFields(fields: seq<string>): (r: Option<seq<int>>)
    ensures r.Some? <==> forall k :: 0 <= k < |fields| ==> Text.ParseInt(fields[k]).Some?
    ensures r.Some? ==>
      |r.value| == |fields| && forall k :: 0 <= k < |fields| ==> Text.ParseInt(fields[k]) == Some(r.value[k])
  {
    if forall k :: 0 <= k < |fields| ==> Text.ParseInt(fields[k]).Some? then
      Some(seq(|fields|, k requires 0 <= k < |fields| => Text.ParseInt(fields[k]).value))
    else None
  }

  /** `tuple(map(int, line.split(',')))`. */
  function ParseLine(line: string): Option<seq<int>>
  {
    ParseFields(Text.Split(line, ","))
  }

  /** `parse_coordinates`: each line split at commas into integers (any number of them). */
  function ParseCoordinates(lines: seq<string>): (r: Result<seq<seq<int>>>)
    ensures r.Ok? <==> forall k :: 0 <= k < |lines| ==> ParseLine(lines[k]).Some?
    ensures r.Err? ==> r.error == ParseError
    ensures r.Ok? ==>
      |r.value| == |lines| && forall k :: 0 <= k < |lines| ==> ParseLine(lines[k]) == Some(r.value[k])
  {
    if forall k :: 0 <= k < |lines| ==> ParseLine(lines[k]).Some? then
      Ok(seq(|lines|, k requires 0 <= k < |lines| => ParseLine(lines[k]).value))
    else Err(ParseError)
  }

  type Point = (int, int, int)

  /** The coordinate at index `k`, or 0 where the line had fewer fields. */
  function Coord(c: seq<int>, k: nat): int
  {
    if k < |c| then c[k] else 0
  }

  /**
   * The junction boxes. With two or more boxes every one takes part in a
   * distance, which reads three coordinates (IndexError for a shorter line);
   * with fewer, no coordinate beyond the first is ever read.
   */
  function Boxes(lines: seq<string>): (r: Result<seq<Point>>)
    ensures ParseCoordinates(lines).Err? ==> r == Err(ParseError)
    ensures ParseCoordinates(lines).Ok? ==> var cs := ParseCoordinates(lines).value;
      (r.Err? <==> |cs| >= 2 && exists k :: 0 <= k < |cs| && |cs[k]| < 3) &&
      (r.Err? ==> r.error == IndexError) &&
      (r.Ok? ==>
         |r.value| == |cs| &&
         forall k :: 0 <= k < |cs| ==> r.value[k] == (Coord(cs[k], 0), Coord(cs[k], 1), Coord(cs[k], 2)))
  {
    match ParseCoordinates(lines)
    case Err(e) => Err(e)
    case Ok(cs) =>
      if |cs| >= 2 && exists k :: 0 <= k < |cs| && |cs[k]| < 3 then Err(IndexError)
      else Ok(seq(|cs|, k requires 0 <= k < |cs| => (Coord(cs[k], 0), Coord(cs[k], 1), Coord(cs[k], 2))))
  }

  /** The squared Euclidean distance: the same order as the distance, without a square root. */
  function SquaredDistance(p: Point, q: Point): int
  {
    (p.0 - q.0) * (p.0 - q.0) + (p.1 - q.1) * (p.1 - q.1) + (p.2 - q.2) * (p.2 - q.2)
  }

  /** A squared distance is never negative, is zero only between equal points, and is symmetric. */
  lemma SquaredDistanceMetric(p: Point, q: Point)
    ensures SquaredDistance(p, q) >= 0
    ensures SquaredDistance(p, q) == 0 <==> p == q
    ensures SquaredDistance(p, q) == SquaredDistance(q, p)
  {
    Square(p.0 - q.0);
    Square(p.1 - q.1);
    Square(p.2 - q.2);
  }

  lemma Square(a: int)
    ensures a * a >= 0 && (a * a == 0 <==> a == 0)
  {
    if a < 0 {
      assert a * a == (-a) * (-a);
    }
  }

  // ----------------------------------------------------------------------------
  // The candidate pairs

  /** The pairs `(i, m)` for `i < m < j`, with their squared distance, by increasing `m`. */
  function RowEdges(boxes: seq<Point>, i: nat, j: nat): seq<Edge>
    requires i < j <= |boxes|
    decreases j
  {
    if j == i + 1 then []
    else RowEdges(boxes, i, j - 1) + [(SquaredDistance(boxes[i], boxes[j - 1]), i, j - 1)]
  }

  /** All pairs whose first index is below `i`, row after row. */
  function PairsBelow(boxes: seq<Point>, i: nat): seq<Edge>
    requires i <= |boxes|
  {
    if i == 0 then [] else PairsBelow(boxes, i - 1) + RowEdges(boxes, i - 1, |boxes|)
  }

  /** The list of `(distance, i, j)` both parts build before sorting. */
  function Candidates(boxes: seq<Point>): seq<Edge>
  {
    PairsBelow(boxes, |boxes|)
  }

  /** The pair of index `i` and `j`, with its distance. */
  predicate IsPair(boxes: seq<Point>, e: Edge)
  {
    e.1 < e.2 < |boxes| && e.0 == SquaredDistance(boxes[e.1], boxes[e.2])
  }

  /** Python's tuple order on `(distance, i, j)`. */
  predicate EdgeLe(a: Edge, b: Edge)
  {
    a.0 < b.0 || (a.0 == b.0 && (a.1 < b.1 || (a.1 == b.1 && a.2 <= b.2)))
  }

  /** `a` comes before `b` in the order of the two loops: by `i`, then by `j`. */
  predicate IndexBefore(a: Edge, b: Edge)
  {
    a.1 < b.1 || (a.1 == b.1 && a.2 < b.2)
  }

  /** Strictly increasing by `(i, j)`: the order the two loops produce, with no pair twice. */
  predicate IndexOrdered(es: seq<Edge>)
  {
    forall a, b :: 0 <= a < b < |es| ==> IndexBefore(es[a], es[b])
  }

  lemma {:induction false} RowEdgesMembers(boxes: seq<Point>, i: nat, j: nat)
    requires i < j <= |boxes|
    ensures |RowEdges(boxes, i, j)| == j - i - 1
    ensures forall e: Edge :: e in RowEdges(boxes, i, j) <==> IsPair(boxes, e) && e.1 == i && e.2 < j
    decreases j
  {
    if j > i + 1 {
      RowEdgesMembers(boxes, i, j - 1);
    }
  }

  lemma {:induction false} RowEdgesOrdered(boxes: seq<Point>, i: nat, j: nat)
    requires i < j <= |boxes|
    ensures IndexOrdered(RowEdges(boxes, i, j))
    ensures forall k :: 0 <= k < |RowEdges(boxes, i, j)| ==> RowEdges(boxes, i, j)[k].1 == i
    ensures forall k :: 0 <= k < |RowEdges(boxes, i, j)| ==> RowEdges(boxes, i, j)[k].2 < j
    decreases j
  {
    if j > i + 1 {
      RowEdgesOrdered(boxes, i, j - 1);
    }
  }

  /** One row's pairs: `j - i - 1` of them, all with first index `i`, by increasing second index. */
  lemma RowEdgesShape(boxes: seq<Point>, i: nat, j: nat)
    requires i < j <= |boxes|
    ensures |RowEdges(boxes, i, j)| == j - i - 1
    ensures forall e: Edge :: e in RowEdges(boxes, i, j) <==> IsPair(boxes, e) && e.1 == i && e.2 < j
    ensures IndexOrdered(RowEdges(boxes, i, j))
    ensures forall k :: 0 <= k < |RowEdges(boxes, i, j)| ==> RowEdges(boxes, i, j)[k].1 == i
  {
    RowEdgesMembers(boxes, i, j);
    RowEdgesOrdered(boxes, i, j);
  }

  /** (n - i) + (n - i - 1) + ... counted row by row. */
  function PairCount(n: nat, i: nat): nat
    requires i <= n
  {
    if i == 0 then 0 else PairCount(n, i - 1) + (n - i)
  }

  lemma {:induction false} PairCountClosed(n: nat, i: nat)
    requires i <= n
    ensures 2 * PairCount(n, i) == i * (2 * n - i - 1)
  {
    if i > 0 {
      PairCountClosed(n, i - 1);
    }
  }

  /** All pairs with first index below `i`: how many, which, and in what order. */
  lemma PairsBelowShape(boxes: seq<Point>, i: nat)
    requires i <= |boxes|
    ensures |PairsBelow(boxes, i)| == PairCount(|boxes|, i)
    ensures forall e: Edge :: e in PairsBelow(boxes, i) <==> IsPair(boxes, e) && e.1 < i
    ensures IndexOrdered(PairsBelow(boxes, i))
    ensures forall k :: 0 <= k < |PairsBelow(boxes, i)| ==> PairsBelow(boxes, i)[k].1 < i
  {
    PairsBelowCount(boxes, i);
    PairsBelowMembers(boxes, i);
    PairsBelowRows(boxes, i);
    PairsBelowOrdered(boxes, i);
  }

  lemma {:induction false} PairsBelowCount(boxes: seq<Point>, i: nat)
    requires i <= |boxes|
    ensures |PairsBelow(boxes, i)| == PairCount(|boxes|, i)
  {
    if i > 0 {
      PairsBelowCount(boxes, i - 1);
      RowEdgesShape(boxes, i - 1, |boxes|);
    }
  }

  lemma {:induction false} PairsBelowMembers(boxes: seq<Point>, i: nat)
    requires i <= |boxes|
    ensures forall e: Edge :: e in PairsBelow(boxes, i) <==> IsPair(boxes, e) && e.1 < i
  {
    if i > 0 {
      PairsBelowMembers(boxes, i - 1);
      RowEdgesMembers(boxes, i - 1, |boxes|);
    }
  }

  lemma {:induction false} PairsBelowRows(boxes: seq<Point>, i: nat)
    requires i <= |boxes|
    ensures forall k :: 0 <= k < |PairsBelow(boxes, i)| ==> PairsBelow(boxes, i)[k].1 < i
  {
    if i > 0 {
      PairsBelowRows(boxes, i - 1);
      RowEdgesShape(boxes, i - 1, |boxes|);
      var a := PairsBelow(boxes, i - 1);
      var b := RowEdges(boxes, i - 1, |boxes|);
      var c := a + b;
      assert PairsBelow(boxes, i) == c;
      forall k | 0 <= k < |c| ensures c[k].1 < i {
        if k < |a| {
          assert c[k] == a[k];
        } else {
          assert c[k] == b[k - |a|];
        }
      }
    }
  }

  lemma {:induction false} PairsBelowOrdered(boxes: seq<Point>, i: nat)
    requires i <= |boxes|
    ensures IndexOrdered(PairsBelow(boxes, i))
  {
    if i > 0 {
      PairsBelowOrdered(boxes, i - 1);
      PairsBelowRows(boxes, i - 1);
      RowEdgesShape(boxes, i - 1, |boxes|);
      var a := PairsBelow(boxes, i - 1);
      var b := RowEdges(boxes, i - 1, |boxes|);
      var c := a + b;
      assert PairsBelow(boxes, i) == c;
      forall p, q | 0 <= p < q < |c| ensures IndexBefore(c[p], c[q]) {
        if q < |a| {
          assert c[p] == a[p] && c[q] == a[q];
        } else if p >= |a| {
          assert c[p] == b[p - |a|] && c[q] == b[q - |a|];
        } else {
          assert c[p] == a[p] && c[q] == b[q - |a|];
        }
      }
    }
  }

  /**
   * The candidate list holds every pair `i < j` exactly once, with its
   * distance, `n (n - 1) / 2` of them, in increasing `(i, j)` order.
   */
  lemma CandidatesExact(boxes: seq<Point>)
    ensures forall e: Edge :: e in Candidates(boxes) <==> IsPair(boxes, e)
    ensures |Candidates(boxes)| == |boxes| * (|boxes| - 1) / 2
    ensures IndexOrdered(Candidates(boxes))
  {
    PairsBelowShape(boxes, |boxes|);
    PairCountClosed(|boxes|, |boxes|);
  }

  /** The two nested loops both parts run: every pair `i < j` with its distance, in loop order. */
  method ListCandidates(boxes: seq<Point>) returns (distances: seq<Edge>)
    ensures distances == Candidates(boxes)
  {
    distances := [];
    for i := 0 to |boxes|
      invariant distances == PairsBelow(boxes, i)
    {
      for j := i + 1 to |boxes|
        invariant distances == PairsBelow(boxes, i) + RowEdges(boxes, i, j)
      {
        distances := distances + [(SquaredDistance(boxes[i], boxes[j]), i, j)];
      }
    }
  }

  lemma EdgeLeTotalOrder()
    ensures Sorting.TotalOrder(EdgeLe)
  {
  }

  /** `distances.sort()`: Python's tuple order, nearest first, ties by `i` and then `j`. */
  function Ordered(boxes: seq<Point>): (es: seq<Edge>)
    ensures Sorting.SortedBy(es, EdgeLe) && multiset(es) == multiset(Candidates(boxes))
    ensures |es| == |Candidates(boxes)| && EdgesIn(es, |boxes|)
  {
    EdgeLeTotalOrder();
    var es := Sorting.SortBy(Candidates(boxes), EdgeLe);
    PermutedPairs(boxes, es);
    es
  }

  /** A rearrangement of the candidates holds exactly the pairs, so its indices are in range. */
  lemma PermutedPairs(boxes: seq<Point>, es: seq<Edge>)
    requires multiset(es) == multiset(Candidates(boxes))
    ensures forall e: Edge :: e in es <==> IsPair(boxes, e)
    ensures EdgesIn(es, |boxes|)
  {
    CandidatesExact(boxes);
    forall e: Edge ensures e in es <==> e in Candidates(boxes) {
      assert e in es <==> e in multiset(es);
      assert e in Candidates(boxes) <==> e in multiset(Candidates(boxes));
    }
    forall k | 0 <= k < |es| ensures es[k].1 < |boxes| && es[k].2 < |boxes| {
      assert es[k] in es;
    }
  }

  /** Any sorted arrangement of the candidates is this one: the tuple order leaves no ties to break. */
  lemma OrderedUnique(boxes: seq<Point>, es: seq<Edge>)
    requires Sorting.SortedBy(es, EdgeLe) && multiset(es) == multiset(Candidates(boxes))
    ensures es == Ordered(boxes)
  {
    EdgeLeTotalOrder();
    Sorting.SortedUnique(es, Ordered(boxes), EdgeLe);
  }

  /** The sorted list holds each pair `i < j` of the boxes, with its distance, exactly once. */
  lemma OrderedExact(boxes: seq<Point>)
    ensures forall e: Edge :: e in Ordered(boxes) <==> IsPair(boxes, e)
    ensures EdgesIn(Ordered(boxes), |boxes|)
    ensures |Ordered(boxes)| == |boxes| * (|boxes| - 1) / 2
  {
    CandidatesExact(boxes);
    PermutedPairs(boxes, Ordered(boxes));
  }

  // ----------------------------------------------------------------------------
  // part1

  /** The number of `union` calls the budget loop makes over `m` pairs: it stops right after call number `budget`, so 0 means no limit. */
  function UnionCalls(budget: nat, m: nat): (calls: nat)
    ensures calls <= m
    ensures budget >= 1 ==> calls == if budget < m then budget else m
    ensures budget == 0 ==> calls == m
  {
    if 1 <= budget <= m then budget else m
  }

  /**
   * The budget loop: `union` on each pair in order, counting every call
   * whether it merged or not, until the count reaches `budget`.
   */
  method ConnectClosest(ds: DisjointSet, edges: seq<Edge>, budget: nat) returns (attempts: nat)
    requires ds.Valid() && EdgesIn(edges, |ds.parent|)
    modifies ds
    ensures attempts == UnionCalls(budget, |edges|)
    ensures ds.Valid() && ds.State() == Replay(old(ds.State()), edges[..attempts])
  {
    ghost var f := ds.State();
    attempts := 0;
    var k := 0;
    while k < |edges|
      invariant k <= |edges| && attempts == k && (budget == 0 || k < budget)
      invariant |ds.parent| == |f.parent|
      invariant ds.Valid() && ds.State() == Replay(f, edges[..k])
    {
      ReplayStep(f, edges, k);
      var _ := ds.Union(edges[k].1, edges[k].2);
      attempts := attempts + 1;
      k := k + 1;
      if attempts == budget {
        break;
      }
    }
  }

  /** `x` is a root exactly when it is its own root. */
  lemma RootSelf(f: Forest, x: nat)
    requires Shaped(f) && x < |f.parent|
    ensures Root(f, x) == x <==> f.parent[x] == x
  {
  }

  /** `g` has the circuits, roots and root sizes of `f`, whatever its paths. */
  ghost predicate SameCircuits(g: Forest, f: Forest)
  {
    Shaped(g) && Shaped(f) && |g.parent| == |f.parent| && g.size == f.size &&
    (forall z :: 0 <= z < |f.parent| ==> (g.parent[z] == z <==> f.parent[z] == z)) &&
    (forall z :: 0 <= z < |f.parent| ==> Root(g, z) == Root(f, z))
  }

  lemma CompressRootStatus(g: Forest, i: nat)
    requires Shaped(g) && i < |g.parent|
    ensures forall z :: 0 <= z < |g.parent| ==> (Compress(g, i).parent[z] == z <==> g.parent[z] == z)
  {
    CompressKeepsRootSet(g, i);
    var h := Compress(g, i);
    forall z | 0 <= z < |g.parent| ensures h.parent[z] == z <==> g.parent[z] == z {
      assert h.parent[z] == z <==> z in RootSet(h);
    }
  }

  lemma CompressAllRoots(g: Forest, i: nat)
    requires Shaped(g) && i < |g.parent|
    ensures forall z :: 0 <= z < |g.parent| ==> Root(Compress(g, i), z) == Root(g, z)
  {
    forall z | 0 <= z < |g.parent| ensures Root(Compress(g, i), z) == Root(g, z) {
      CompressKeepsRoots(g, i, z);
    }
  }

  /** Forests with the same circuits and root sizes are both consistent or neither. */
  lemma SameCircuitsConsistent(g: Forest, f: Forest)
    requires SameCircuits(g, f) && Consistent(f)
    ensures Consistent(g)
  {
    forall r | 0 <= r < |g.parent| && g.parent[r] == r ensures g.size[r] == |Members(g, r)| {
      assert Members(g, r) == Members(f, r);
    }
  }

  /** A `find` keeps the circuits, and the root it returns is `i` exactly when `i` is a root. */
  lemma CompressSameCircuits(g: Forest, f: Forest, i: nat)
    requires SameCircuits(g, f) && i < |f.parent|
    ensures SameCircuits(Compress(g, i), f)
    ensures Root(g, i) == i <==> f.parent[i] == i
  {
    CompressRootStatus(g, i);
    CompressAllRoots(g, i);
    RootSelf(g, i);
  }

  /** One round of the size-gathering loop: after `find(i)` the circuits are the same, and `i` is kept exactly when it is a root. */
  lemma SizesStep(f: Forest, g: Forest, h: Forest, i: nat, r: nat)
    requires SameCircuits(g, f) && i < |f.parent| && h == Compress(g, i) && r == Root(g, i)
    ensures SameCircuits(h, f) && h.size == f.size
    ensures RootSizesBelow(f, i + 1) == RootSizesBelow(f, i) + if r == i then [h.size[i]] else []
  {
    CompressSameCircuits(g, f, i);
  }

  /** The first `k` nodes of `parent` point straight at their roots in `f`. */
  ghost predicate AtRoots(parent: seq<nat>, f: Forest, k: nat)
  {
    Shaped(f) && k <= |parent| == |f.parent| && forall j :: 0 <= j < k ==> parent[j] == Root(f, j)
  }

  /** `find(i)` on a forest with the circuits of `f` points `i` at its root and keeps the nodes before it at theirs. */
  lemma ParentsAtRoots(f: Forest, g: Forest, h: Forest, i: nat, r: nat)
    requires SameCircuits(g, f) && i < |f.parent| && h == Compress(g, i) && r == Root(g, i)
    requires AtRoots(g.parent, f, i) && g.rank == f.rank
    ensures SameCircuits(h, f) && h.size == f.size && h.rank == f.rank
    ensures RootSizesBelow(f, i + 1) == RootSizesBelow(f, i) + if r == i then [h.size[i]] else []
    ensures AtRoots(h.parent, f, i + 1)
  {
    SizesStep(f, g, h, i, r);
    CompressAllRoots(g, i);
  }

  /**
   * `[size[i] for i in range(n) if find(i) == i]`: the sizes at the roots in
   * index order. The `find` calls compress paths but change no root and no size.
   */
  method CircuitSizes(ds: DisjointSet) returns (sizes: seq<nat>)
    requires ds.Valid()
    modifies ds
    ensures sizes == RootSizes(old(ds.State()))
    ensures ds.Valid() && SameCircuits(ds.State(), old(ds.State()))
    ensures ds.rank == old(ds.rank)
    ensures AtRoots(ds.parent, old(ds.State()), |ds.parent|)
  {
    ghost var f := ds.State();
    var n := |ds.parent|;
    sizes := [];
    for i := 0 to n
      invariant SameCircuits(ds.State(), f) && ds.rank == f.rank
      invariant AtRoots(ds.parent, f, i)
      invariant sizes == RootSizesBelow(f, i)
    {
      ghost var g := ds.State();
      var r := ds.Find(i);
      ParentsAtRoots(f, g, ds.State(), i, r);
      if r == i {
        sizes := sizes + [ds.size[i]];
      }
    }
    SameCircuitsConsistent(ds.State(), f);
  }

  predicate NatGe(a: nat, b: nat)
  {
    a >= b
  }

  /**
   * The three largest of `sizes` (with repeats), largest first: every other
   * entry is at most the third. None when there are fewer than three.
   */
  function LargestThree(sizes: seq<nat>): (r: Option<(nat, nat, nat)>)
    ensures r.None? <==> |sizes| < 3
    ensures r.Some? ==> var (a, b, c) := r.value;
      a >= b >= c && multiset{a, b, c} <= multiset(sizes) &&
      forall x :: x in multiset(sizes) - multiset{a, b, c} ==> x <= c
  {
    assert Sorting.TotalOrder(NatGe);
    var d := Sorting.SortBy(sizes, NatGe);
    if |d| < 3 then None
    else
      LargestThreeOfSorted(d);
      Some((d[0], d[1], d[2]))
  }

  lemma LargestThreeOfSorted(d: seq<nat>)
    requires Sorting.SortedBy(d, NatGe) && |d| >= 3
    ensures d[0] >= d[1] >= d[2] && multiset{d[0], d[1], d[2]} <= multiset(d)
    ensures forall x :: x in multiset(d) - multiset{d[0], d[1], d[2]} ==> x <= d[2]
  {
    assert d == [d[0], d[1], d[2]] + d[3..];
    assert multiset(d) == multiset{d[0], d[1], d[2]} + multiset(d[3..]);
    forall x | x in multiset(d) - multiset{d[0], d[1], d[2]} ensures x <= d[2] {
      assert x in multiset(d[3..]);
      var k :| 0 <= k < |d[3..]| && d[3..][k] == x;
      assert d[k + 3] == x;
    }
  }

  /** The prefix of a list of edges in range is in range. */
  lemma EdgesInPrefix(es: seq<Edge>, n: nat, m: nat)
    requires EdgesIn(es, n) && m <= |es|
    ensures EdgesIn(es[..m], n)
  {
    assert forall k :: 0 <= k < m ==> es[..m][k] == es[k];
  }

  /** The circuits once the budget loop is done: the first `UnionCalls(budget, ...)` sorted pairs replayed on a fresh structure. */
  function AfterBudget(boxes: seq<Point>, budget: nat): (f: Forest)
    ensures Consistent(f) && |f.parent| == |boxes|
  {
    var es := Ordered(boxes);
    EdgesInPrefix(es, |boxes|, UnionCalls(budget, |es|));
    InitConsistent(|boxes|);
    ReplayCount(Init(|boxes|), es[..UnionCalls(budget, |es|)]);
    Replay(Init(|boxes|), es[..UnionCalls(budget, |es|)])
  }

  /**
   * What part 1 sees after its loop: the root sizes sum to the number of boxes,
   * there is one per circuit, and every merging call made one circuit fewer.
   */
  lemma AfterBudgetCircuits(boxes: seq<Point>, budget: nat)
    ensures var f, es := AfterBudget(boxes, budget), Ordered(boxes);
      Sum(RootSizes(f)) == |boxes| && |RootSizes(f)| == NumRoots(f) &&
      EdgesIn(es[..UnionCalls(budget, |es|)], |boxes|) &&
      NumRoots(f) == |boxes| - Merges(Init(|boxes|), es[..UnionCalls(budget, |es|)])
  {
    var es := Ordered(boxes);
    var m := UnionCalls(budget, |es|);
    EdgesInPrefix(es, |boxes|, m);
    InitConsistent(|boxes|);
    ReplayCount(Init(|boxes|), es[..m]);
    RootSizesSum(AfterBudget(boxes, budget));
  }

  /** The answer part 1 gives for the circuits of `f`: the product of the three largest sizes, or IndexError with fewer than three circuits. */
  function TopThreeProduct(f: Forest): (r: Result<int>)
    requires Shaped(f)
  {
    match LargestThree(RootSizes(f))
    case None => Err(IndexError)
    case Some((a, b, c)) => Ok(a * b * c)
  }

  /**
   * `part1`, with the budget of `union` calls as a parameter (the puzzle uses
   * 1000): wire up the closest pairs, then multiply the three largest circuit
   * sizes. IndexError when there are fewer than three circuits.
   */
  method Part1(lines: seq<string>, budget: nat) returns (r: Result<int>)
    ensures Boxes(lines).Err? ==> r == Err(Boxes(lines).error)
    ensures Boxes(lines).Ok? ==> r == TopThreeProduct(AfterBudget(Boxes(lines).value, budget))
  {
    var parsed := Boxes(lines);
    if parsed.Err? {
      return Err(parsed.error);
    }
    var boxes := parsed.value;
    var distances := ListCandidates(boxes);
    EdgeLeTotalOrder();
    var sorted := Sorting.SortBy(distances, EdgeLe);
    assert sorted == Ordered(boxes);
    var ds := new DisjointSet(|boxes|);
    var attempts := ConnectClosest(ds, sorted, budget);
    assert ds.State() == AfterBudget(boxes, budget);
    var circuitSizes := CircuitSizes(ds);
    assert Sorting.TotalOrder(NatGe);
    circuitSizes := Sorting.SortBy(circuitSizes, NatGe);
    if |circuitSizes| < 3 {
      return Err(IndexError);
    }
    var first: int, second: int, third: int := circuitSizes[0], circuitSizes[1], circuitSizes[2];
    r := Ok(first * second * third);
  }

  // ----------------------------------------------------------------------------
  // part2

  /** The forest after the first `k` sorted pairs, replayed on `n` fresh elements. */
  function Prefix(n: nat, es: seq<Edge>, k: nat): (f: Forest)
    requires EdgesIn(es, n) && k <= |es|
    ensures Shaped(f) && |f.parent| == n
  {
    EdgesInPrefix(es, n, k);
    Replay(Init(n), es[..k])
  }

  /** Pair `m` is a `union` that merges and leaves a single circuit. */
  ghost predicate Connects(n: nat, es: seq<Edge>, m: nat)
    requires EdgesIn(es, n)
  {
    m < |es| && Link(Prefix(n, es, m), es[m].1, es[m].2).1 && NumRoots(Prefix(n, es, m + 1)) == 1
  }

  /** Pair `m` is the first such pair. */
  ghost predicate FirstConnects(n: nat, es: seq<Edge>, m: nat)
    requires EdgesIn(es, n)
  {
    Connects(n, es, m) && forall k :: 0 <= k < m ==> !Connects(n, es, k)
  }

  /** What part 2 answers: the product of the x coordinates of the first connecting pair, or -1 when no pair connects. */
  ghost predicate LastConnection(boxes: seq<Point>, answer: int)
  {
    var es := Ordered(boxes);
    (exists m: nat :: FirstConnects(|boxes|, es, m) && answer == boxes[es[m].1].0 * boxes[es[m].2].0) ||
    ((forall m: nat :: !Connects(|boxes|, es, m)) && answer == -1)
  }

  /** One more pair replayed is one more `union`. */
  lemma PrefixNext(n: nat, es: seq<Edge>, k: nat)
    requires EdgesIn(es, n) && k < |es|
    ensures Prefix(n, es, k + 1) == Link(Prefix(n, es, k), es[k].1, es[k].2).0
  {
    ReplayStep(Init(n), es, k);
  }

  /** One more pair replayed: the forest after it, and whether it merged. */
  lemma PrefixStep(n: nat, es: seq<Edge>, k: nat)
    requires EdgesIn(es, n) && k < |es|
    ensures Prefix(n, es, k + 1) == Link(Prefix(n, es, k), es[k].1, es[k].2).0
    ensures Consistent(Prefix(n, es, k)) && Consistent(Prefix(n, es, k + 1))
    ensures NumRoots(Prefix(n, es, k + 1)) ==
      if Link(Prefix(n, es, k), es[k].1, es[k].2).1 then NumRoots(Prefix(n, es, k)) - 1 else NumRoots(Prefix(n, es, k))
  {
    ReplayStep(Init(n), es, k);
    InitConsistent(n);
    ReplayCount(Init(n), es[..k]);
    ReplayCount(Init(n), es[..k + 1]);
    LinkCount(Prefix(n, es, k), es[k].1, es[k].2);
  }

  /** No pair before `k` connects. */
  ghost predicate NoneConnect(n: nat, es: seq<Edge>, k: nat)
    requires EdgesIn(es, n)
  {
    forall m :: 0 <= m < k ==> !Connects(n, es, m)
  }

  lemma NoneConnectStep(n: nat, es: seq<Edge>, k: nat)
    requires EdgesIn(es, n) && NoneConnect(n, es, k) && !Connects(n, es, k)
    ensures NoneConnect(n, es, k + 1)
  {
  }

  /** Pair `k` connects exactly when its `union` merged and the count it leaves is 1. */
  lemma ConnectsStep(n: nat, es: seq<Edge>, k: nat, merged: bool, circuits: int)
    requires EdgesIn(es, n) && k < |es|
    requires merged == Link(Prefix(n, es, k), es[k].1, es[k].2).1
    requires circuits == NumRoots(Prefix(n, es, k + 1))
    ensures Connects(n, es, k) <==> merged && circuits == 1
  {
  }

  /**
   * The loop of `part2`: union the pairs in order, counting circuits down from
   * `n`; at the merge that leaves one circuit, answer the product of the two
   * boxes' x coordinates. -1 if that never happens.
   */
  method ConnectUntilOne(ds: DisjointSet, boxes: seq<Point>, edges: seq<Edge>) returns (answer: int)
    requires EdgesIn(edges, |boxes|) && ds.State() == Init(|boxes|) && ds.Valid()
    modifies ds
    ensures ds.Valid()
    ensures (exists m: nat :: FirstConnects(|boxes|, edges, m) && answer == boxes[edges[m].1].0 * boxes[edges[m].2].0 &&
                              ds.State() == Prefix(|boxes|, edges, m + 1)) ||
            ((forall m: nat :: !Connects(|boxes|, edges, m)) && answer == -1 && ds.State() == Prefix(|boxes|, edges, |edges|))
  {
    var n := |boxes|;
    InitConsistent(n);
    var circuits := n;
    for k := 0 to |edges|
      invariant ds.Valid() && ds.State() == Prefix(n, edges, k)
      invariant circuits == NumRoots(ds.State())
      invariant NoneConnect(n, edges, k)
    {
      PrefixStep(n, edges, k);
      var x, y := edges[k].1, edges[k].2;
      var merged := ds.Union(x, y);
      ConnectsStep(n, edges, k, merged, if merged then circuits - 1 else circuits);
      if merged {
        circuits := circuits - 1;
        if circuits == 1 {
          return boxes[x].0 * boxes[y].0;
        }
      }
      NoneConnectStep(n, edges, k);
    }
    return -1;
  }

  /**
   * `part2`: sort the pairs nearest first and connect until one circuit
   * remains; the product of the x coordinates of the pair that closed it.
   */
  method Part2(lines: seq<string>) returns (r: Result<int>)
    ensures Boxes(lines).Err? ==> r == Err(Boxes(lines).error)
    ensures Boxes(lines).Ok? ==> r.Ok? && LastConnection(Boxes(lines).value, r.value)
  {
    var parsed := Boxes(lines);
    if parsed.Err? {
      return Err(parsed.error);
    }
    var boxes := parsed.value;
    var distances := ListCandidates(boxes);
    EdgeLeTotalOrder();
    var sorted := Sorting.SortBy(distances, EdgeLe);
    assert sorted == Ordered(boxes);
    var ds := new DisjointSet(|boxes|);
    var answer := ConnectUntilOne(ds, boxes, sorted);
    r := Ok(answer);
  }

  /** The connecting pair is the `(n - 1)`-th `union` that merged. */
  lemma ConnectingMergeCount(n: nat, es: seq<Edge>, m: nat)
    requires EdgesIn(es, n) && Connects(n, es, m)
    ensures EdgesIn(es[..m + 1], n) && Merges(Init(n), es[..m + 1]) == n - 1
  {
    EdgesInPrefix(es, n, m + 1);
    InitConsistent(n);
    ReplayCount(Init(n), es[..m + 1]);
  }

  /** Once two elements share a circuit, more unions keep them together. */
  lemma LinkKeepsJoined(f: Forest, x: nat, y: nat, a: nat, b: nat)
    requires Shaped(f) && x < |f.parent| && y < |f.parent| && a < |f.parent| && b < |f.parent|
    requires Joined(f, a, b)
    ensures Joined(Link(f, x, y).0, a, b)
  {
    LinkJoins(f, x, y, a, b);
  }

  /** The ends of pair `k` share a circuit once it is replayed. */
  lemma PrefixJoinsLast(n: nat, es: seq<Edge>, k: nat)
    requires EdgesIn(es, n) && k < |es|
    ensures Joined(Prefix(n, es, k + 1), es[k].1, es[k].2)
  {
    PrefixNext(n, es, k);
    var f, x, y := Prefix(n, es, k), es[k].1, es[k].2;
    LinkJoins(f, x, y, x, y);
  }

  /** Elements that share a circuit still do after pair `k`. */
  lemma PrefixKeepsJoined(n: nat, es: seq<Edge>, k: nat, a: nat, b: nat)
    requires EdgesIn(es, n) && k < |es| && a < n && b < n
    requires Joined(Prefix(n, es, k), a, b)
    ensures Joined(Prefix(n, es, k + 1), a, b)
  {
    PrefixNext(n, es, k);
    LinkKeepsJoined(Prefix(n, es, k), es[k].1, es[k].2, a, b);
  }

  /** After the first `k` pairs, the two ends of pair `m < k` share a circuit. */
  lemma {:induction false} PrefixJoinsAt(n: nat, es: seq<Edge>, k: nat, m: nat)
    requires EdgesIn(es, n) && m < k <= |es|
    ensures Joined(Prefix(n, es, k), es[m].1, es[m].2)
  {
    if m == k - 1 {
      PrefixJoinsLast(n, es, m);
    } else {
      PrefixJoinsAt(n, es, k - 1, m);
      PrefixKeepsJoined(n, es, k - 1, es[m].1, es[m].2);
    }
  }

  /** After the first `k` pairs, the two ends of each of them share a circuit. */
  lemma PrefixJoins(n: nat, es: seq<Edge>, k: nat)
    requires EdgesIn(es, n) && k <= |es|
    ensures forall m :: 0 <= m < k ==> Joined(Prefix(n, es, k), es[m].1, es[m].2)
  {
    forall m | 0 <= m < k ensures Joined(Prefix(n, es, k), es[m].1, es[m].2) {
      PrefixJoinsAt(n, es, k, m);
    }
  }

  /** A forest in which every element shares a circuit with element 0 has one circuit. */
  lemma OneCircuit(f: Forest)
    requires Shaped(f) && |f.parent| >= 1
    requires forall i :: 0 < i < |f.parent| ==> Joined(f, 0, i)
    ensures NumRoots(f) == 1
  {
    var r0 := Root(f, 0);
    forall r | r in RootSet(f) ensures r == r0 {
      if r != 0 {
        assert Joined(f, 0, r);
      }
    }
    assert RootSet(f) == {r0};
  }

  /** Connecting every pair of at least one box leaves a single circuit. */
  lemma AllPairsConnect(boxes: seq<Point>)
    requires |boxes| >= 1
    ensures NumRoots(Prefix(|boxes|, Ordered(boxes), |Ordered(boxes)|)) == 1
  {
    var n, es := |boxes|, Ordered(boxes);
    var f := Prefix(n, es, |es|);
    PrefixJoins(n, es, |es|);
    PermutedPairs(boxes, es);
    forall i | 0 < i < n ensures Joined(f, 0, i) {
      var e: Edge := (SquaredDistance(boxes[0], boxes[i]), 0, i);
      assert IsPair(boxes, e);
      var m :| 0 <= m < |es| && es[m] == e;
    }
    OneCircuit(f);
  }

  /** After pair `j` a single circuit is left. */
  ghost predicate SingleAfter(n: nat, es: seq<Edge>, j: nat)
    requires EdgesIn(es, n)
  {
    j < |es| && NumRoots(Prefix(n, es, j + 1)) == 1
  }

  /** The first pair after which one circuit is left, when pair `k` leaves one. */
  lemma {:induction false} FirstSingle(n: nat, es: seq<Edge>, k: nat) returns (m: nat)
    requires EdgesIn(es, n) && SingleAfter(n, es, k)
    ensures m <= k && SingleAfter(n, es, m)
    ensures forall j :: 0 <= j < m ==> !SingleAfter(n, es, j)
  {
    if forall j :: 0 <= j < k ==> !SingleAfter(n, es, j) {
      m := k;
    } else {
      var j :| 0 <= j < k && SingleAfter(n, es, j);
      m := FirstSingle(n, es, j);
    }
  }

  /** The first pair that leaves one circuit, out of two or more, connects: its `union` merged. */
  lemma FirstSingleConnects(n: nat, es: seq<Edge>, m: nat)
    requires EdgesIn(es, n) && n >= 2 && SingleAfter(n, es, m)
    requires forall j :: 0 <= j < m ==> !SingleAfter(n, es, j)
    ensures FirstConnects(n, es, m)
  {
    forall k | 0 <= k < m ensures !Connects(n, es, k) {
      assert !SingleAfter(n, es, k);
    }
    MergesIntoSingle(n, es, m);
  }

  /** A pair that leaves one circuit where there were more merged. */
  lemma MergesIntoSingle(n: nat, es: seq<Edge>, m: nat)
    requires EdgesIn(es, n) && n >= 2 && SingleAfter(n, es, m)
    requires m > 0 ==> !SingleAfter(n, es, m - 1)
    ensures Connects(n, es, m)
  {
    PrefixStep(n, es, m);
    if m == 0 {
      InitConsistent(n);
      assert es[..0] == [];
    }
  }

  /**
   * With two or more boxes some pair connects everything, so `part2` never
   * reaches its -1 fallback; with fewer there is no pair at all.
   */
  lemma Part2Connects(boxes: seq<Point>)
    ensures |boxes| >= 2 ==> exists m: nat :: FirstConnects(|boxes|, Ordered(boxes), m)
    ensures |boxes| < 2 ==> Ordered(boxes) == []
  {
    if |boxes| >= 2 {
      ManyBoxesConnect(boxes);
    } else {
      OrderedExact(boxes);
      assert |boxes| * (|boxes| - 1) / 2 == 0;
    }
  }

  lemma ManyBoxesConnect(boxes: seq<Point>)
    requires |boxes| >= 2
    ensures exists m: nat :: FirstConnects(|boxes|, Ordered(boxes), m)
  {
    var n, es := |boxes|, Ordered(boxes);
    OrderedExact(boxes);
    assert |es| >= 1;
    AllPairsConnect(boxes);
    SomeFirstConnects(n, es);
  }

  /** If the whole list leaves one circuit, some pair is the first to connect everything. */
  lemma SomeFirstConnects(n: nat, es: seq<Edge>)
    requires EdgesIn(es, n) && n >= 2 && |es| >= 1 && NumRoots(Prefix(n, es, |es|)) == 1
    ensures exists m: nat :: FirstConnects(n, es, m)
  {
    assert SingleAfter(n, es, |es| - 1);
    var m := FirstSingle(n, es, |es| - 1);
    FirstSingleConnects(n, es, m);
  }
}
