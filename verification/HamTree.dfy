/** The search tree: which nodes a search enters, in which state, and with what
    answer. It says what a run of the search did, independently of its counter. */
module HamTree {
  import opened CubGraph
  import opened HamState
  import opened HamTrail
  import opened HamRing

  /** The classes grew by forced classifications only. */
  ghost predicate Progress(G: Cub, s0: State, s1: State) {
    && |s0.cls| == |s1.cls| == G.ne + 1
    && Grows(s0.cls, s1.cls) && Forces(G, s0.cls, s1.cls) && Unclassified(s1.cls) <= Unclassified(s0.cls)
  }

  /** A ring was found that keeps the classes of s0, and all edges are classified. */
  ghost predicate Found(G: Cub, s0: State, s1: State) {
    Finished(G, s1) && Grows(s0.cls, s1.cls)
  }

  /** A node is entered in one state; propagation takes it to another; at `vertex`
      the search then branches. */
  datatype Tree = Tree(entry: State, status: int, rest: State, vertex: int, kids: seq<Tree>)

  /** The nodes of a tree, each before its children. */
  ghost function Nodes(t: Tree): seq<Tree>
    decreases t
  {
    [t] + NodesOf(t.kids)
  }

  ghost function NodesOf(ts: seq<Tree>): seq<Tree>
    decreases ts
  {
    if ts == [] then [] else NodesOf(ts[..|ts| - 1]) + Nodes(ts[|ts| - 1])
  }

  /** v is the last vertex with one chosen edge, or vertex 0 if there is none. */
  ghost predicate BranchAt(s: State, v: int) {
    && 0 <= v < |s.din| && (s.din[v] == 1 || v == 0)
    && forall u :: v < u < |s.din| ==> s.din[u] != 1
  }

  ghost predicate HasSlots(G: Cub, s: State, v: int) {
    && 0 <= v < |G.g| == |G.eno| && |G.g[v]| == |G.eno[v]| == 3
    && forall i :: 0 <= i < 3 ==> 0 <= G.eno[v][i] < |s.cls|
  }

  /** The slots of v below n that hold an unclassified edge, in order. */
  ghost function OpenSlots(G: Cub, s: State, v: int, n: nat): (r: seq<int>)
    requires HasSlots(G, s, v) && n <= 3
    ensures |r| <= n
    ensures forall i :: i in r <==> 0 <= i < n && s.cls[G.eno[v][i]] == DUNNO
  {
    if n == 0 then [] else OpenSlots(G, s, v, n - 1) + if s.cls[G.eno[v][n - 1]] == DUNNO then [n - 1] else []
  }

  lemma {:induction false} OpenPrefix(G: Cub, s: State, v: int, m: nat, n: nat)
    requires HasSlots(G, s, v) && m <= n <= 3
    ensures OpenSlots(G, s, v, m) <= OpenSlots(G, s, v, n)
  {
    if m < n {
      OpenPrefix(G, s, v, m, n - 1);
    }
  }

  /** The node entered after rejecting the edge in slot i of v. */
  ghost predicate Child(G: Cub, s: State, v: int, i: int, kid: Tree) {
    && HasSlots(G, s, v) && 0 <= i < 3 && 0 <= G.g[v][i] < |s.dout| && v < |s.dout|
    && s.cls[G.eno[v][i]] == DUNNO
    && kid.entry == MarkOut(s, v, G.g[v][i], G.eno[v][i])
  }

  /** The first |kids| unclassified edges at v were rejected in turn. */
  ghost predicate Children(G: Cub, s: State, v: int, kids: seq<Tree>) {
    && HasSlots(G, s, v) && |kids| <= |OpenSlots(G, s, v, 3)|
    && forall k :: 0 <= k < |kids| ==> Child(G, s, v, OpenSlots(G, s, v, 3)[k], kids[k])
  }

  /** The chosen edges form disjoint paths. */
  ghost predicate Paths(G: Cub, s: State) {
    Consistent(G, s) && exists nin :: Open(G, s, nin, -1, -1)
  }

  /** The search branched: propagation came to rest with disjoint paths, every child
      but the last failed, and the last one's answer is the node's. The node
      fails only after all its children. */
  ghost predicate Branched(G: Cub, t: Tree) {
    && t.kids != [] && Progress(G, t.entry, t.rest) && StableExcept(t.rest, [])
    && Paths(G, t.rest)
    && BranchAt(t.rest, t.vertex) && Children(G, t.rest, t.vertex, t.kids)
    && (forall k :: 0 <= k < |t.kids| - 1 ==> t.kids[k].status == NO)
    && t.status == t.kids[|t.kids| - 1].status
    && (t.status == NO ==> |t.kids| == |OpenSlots(G, t.rest, t.vertex, 3)|)
  }

  /** Propagation answered, or the node was cut off. */
  ghost predicate Decided(G: Cub, t: Tree) {
    && (t.status == YES ==> Found(G, t.entry, t.rest))
    && (t.status == NO ==> NoHam(G, t.entry.cls))
  }

  /** A tree that a search produces. */
  ghost predicate Explored(G: Cub, t: Tree)
    decreases t
  {
    && (if t.kids == [] then Decided(G, t) else Branched(G, t))
    && forall k :: 0 <= k < |t.kids| ==> Explored(G, t.kids[k])
  }

  // --- Building a tree ------------------------------------------------------

  /** The unclassified edges in the slots below i were rejected, without success. */
  ghost predicate Growing(G: Cub, s: State, v: int, i: nat, kids: seq<Tree>) {
    && i <= 3 && Children(G, s, v, kids) && |kids| == |OpenSlots(G, s, v, i)|
    && forall k :: 0 <= k < |kids| ==> kids[k].status == NO && Explored(G, kids[k])
  }

  lemma NoKids(G: Cub, s: State, v: int)
    requires HasSlots(G, s, v)
    ensures Growing(G, s, v, 0, [])
  {
  }

  lemma SlotNext(G: Cub, s: State, v: int, i: nat)
    requires HasSlots(G, s, v) && i < 3 && s.cls[G.eno[v][i]] == DUNNO
    ensures OpenSlots(G, s, v, i + 1) == OpenSlots(G, s, v, i) + [i]
    ensures OpenSlots(G, s, v, i + 1) <= OpenSlots(G, s, v, 3)
  {
    OpenPrefix(G, s, v, i + 1, 3);
  }

  lemma OneMoreChild(G: Cub, s: State, v: int, i: nat, kids: seq<Tree>, kid: Tree)
    requires i < 3 && Growing(G, s, v, i, kids) && Child(G, s, v, i, kid)
    ensures Children(G, s, v, kids + [kid])
  {
    hide Explored, OpenSlots, Child;
    HasOpenSlot(G, s, v, i, kid);
    SlotNext(G, s, v, i);
    var all := OpenSlots(G, s, v, 3);
    assert all[|kids|] == i;
  }

  lemma HasOpenSlot(G: Cub, s: State, v: int, i: int, kid: Tree)
    requires Child(G, s, v, i, kid)
    ensures HasSlots(G, s, v) && 0 <= i < 3 && s.cls[G.eno[v][i]] == DUNNO
  {
  }

  lemma NodesSnoc(kids: seq<Tree>, kid: Tree)
    ensures NodesOf(kids + [kid]) == NodesOf(kids) + Nodes(kid)
  {
    assert (kids + [kid])[..|kids|] == kids;
  }

  lemma OneMore(G: Cub, s: State, v: int, i: nat, kids: seq<Tree>, kid: Tree)
    requires i < 3 && Growing(G, s, v, i, kids) && Child(G, s, v, i, kid)
    ensures Children(G, s, v, kids + [kid])
    ensures NodesOf(kids + [kid]) == NodesOf(kids) + Nodes(kid)
    ensures kid.status == NO && Explored(G, kid) ==> Growing(G, s, v, i + 1, kids + [kid])
  {
    hide Explored, OpenSlots, Child, Children, NodesOf, Nodes;
    HasOpenSlot(G, s, v, i, kid);
    SlotNext(G, s, v, i);
    NodesSnoc(kids, kid);
    OneMoreChild(G, s, v, i, kids, kid);
  }

  lemma SlotClassified(G: Cub, s: State, v: int, i: nat, kids: seq<Tree>)
    requires i < 3 && Growing(G, s, v, i, kids) && s.cls[G.eno[v][i]] != DUNNO
    ensures Growing(G, s, v, i + 1, kids)
  {
  }

  /** The last child answered otherwise than NO, or was the last one. */
  lemma Grown(G: Cub, s0: State, s1: State, v: int, i: nat, kids: seq<Tree>, kid: Tree)
    requires i < 3 && Growing(G, s1, v, i, kids) && Child(G, s1, v, i, kid) && Explored(G, kid) && kid.status != NO
    requires Progress(G, s0, s1) && StableExcept(s1, []) && Paths(G, s1) && BranchAt(s1, v)
    ensures Explored(G, Tree(s0, kid.status, s1, v, kids + [kid]))
  {
    hide Progress, StableExcept, Paths, BranchAt, OpenSlots, Child, Children, Nodes, NodesOf;
    OneMore(G, s1, v, i, kids, kid);
  }

  lemma Exhausted(G: Cub, s0: State, s1: State, v: int, kids: seq<Tree>)
    requires Growing(G, s1, v, 3, kids) && kids != []
    requires Progress(G, s0, s1) && StableExcept(s1, []) && Paths(G, s1) && BranchAt(s1, v)
    ensures Explored(G, Tree(s0, NO, s1, v, kids))
  {
    hide Progress, StableExcept, Paths, BranchAt;
  }

  // --- How large a tree can be ----------------------------------------------

  /** The nodes of the full ternary tree of depth u. */
  function Bound(u: nat): (r: nat)
    ensures r >= 1
  {
    if u == 0 then 1 else 1 + 3 * Bound(u - 1)
  }

  lemma {:induction false} BoundMono(u: nat, v: nat)
    requires u <= v
    ensures Bound(u) <= Bound(v)
  {
    if u < v {
      BoundMono(u, v - 1);
    }
  }

  lemma {:induction false} SumBound(ts: seq<Tree>, b: nat)
    requires forall k :: 0 <= k < |ts| ==> |Nodes(ts[k])| <= b
    ensures |NodesOf(ts)| <= |ts| * b
  {
    if ts != [] {
      SumBound(ts[..|ts| - 1], b);
      assert |NodesOf(ts)| <= (|ts| - 1) * b + b;
    }
  }

  lemma ChildSmaller(G: Cub, t: Tree, k: nat)
    requires Branched(G, t) && k < |t.kids|
    ensures Unclassified(t.kids[k].entry.cls) < Unclassified(t.entry.cls)
  {
    hide Paths, Forces, StableExcept, BranchAt;
    var i := OpenSlots(G, t.rest, t.vertex, 3)[k];
    assert Child(G, t.rest, t.vertex, i, t.kids[k]);
    ClassifyCount(t.rest.cls, G.eno[t.vertex][i], NO);
  }

  /** Every child classifies one more edge, so a search enters at most Bound nodes. */
  lemma {:induction false} NodeBound(G: Cub, t: Tree)
    requires Explored(G, t)
    ensures 1 <= |Nodes(t)| <= Bound(Unclassified(t.entry.cls))
    decreases t
  {
    hide Branched, Explored;
    if t.kids != [] {
      var u := Unclassified(t.entry.cls);
      KidExplored(G, t, 0);
      ChildSmaller(G, t, 0);
      forall k | 0 <= k < |t.kids| ensures |Nodes(t.kids[k])| <= Bound(u - 1) {
        KidExplored(G, t, k);
        ChildSmaller(G, t, k);
        NodeBound(G, t.kids[k]);
        BoundMono(Unclassified(t.kids[k].entry.cls), u - 1);
      }
      SumBound(t.kids, Bound(u - 1));
      AtMostThree(G, t);
      Times(|t.kids|, 3, Bound(u - 1));
    }
  }

  lemma KidExplored(G: Cub, t: Tree, k: nat)
    requires Explored(G, t) && k < |t.kids|
    ensures Branched(G, t) && Explored(G, t.kids[k])
  {
    hide Branched;
  }

  lemma Times(a: nat, b: nat, c: nat)
    requires a <= b
    ensures a * c <= b * c
  {
  }

  lemma AtMostThree(G: Cub, t: Tree)
    requires Branched(G, t)
    ensures |t.kids| <= 3
  {
  }
}
