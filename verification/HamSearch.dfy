/** The backtracking search for a Hamiltonian cycle: in-place edge classes and
    degrees, a work stack of vertices, an undo trail, and the recursion. */
module HamSearch {
  import opened CubGraph
  import opened HamState
  import opened HamTrail
  import opened HamRing
  import opened HamStart
  import opened HamTree

  const NO_LIMIT := 0x7FFFFFFF

  function Max(a: int, b: int): int { if a < b then b else a }

  class Search {
    const G: Cub
    const cls: array<int>
    const din: array<int>
    const dout: array<int>
    const farend: array<int>
    const onstack: array<int>
    const stack: array<int>
    var sp: int
    var stacklev: int
    var trail: seq<int>
    var nodecount: int
    var maxnodes: int

    /** The arrays are the graph's size and do not overlap. */
    ghost predicate Valid() {
      && Wf(G)
      && cls.Length == G.ne + 1 && din.Length == G.nv && dout.Length == G.nv && farend.Length == G.nv
      && onstack.Length == G.nv && stack.Length == G.nv
      && cls != din && cls != dout && cls != farend && cls != onstack && cls != stack
      && din != dout && din != farend && din != onstack && din != stack
      && dout != farend && dout != onstack && dout != stack
      && farend != onstack && farend != stack && onstack != stack
    }

    ghost function Snap(): (s: State)
      reads cls, din, dout, farend
    {
      State(cls[..], din[..], dout[..], farend[..])
    }

    ghost function Stk(): seq<int>
      reads `sp, stack
    {
      if 0 <= sp <= stack.Length then stack[..sp] else []
    }

    /** `onstack` marks exactly the vertices on the stack, each stacked once. */
    ghost predicate StackOk()
      reads `sp, `stacklev, onstack, stack
    {
      && 0 <= sp <= stack.Length == onstack.Length && stacklev > 0
      && (forall k :: 0 <= k < sp ==> 0 <= stack[k] < onstack.Length && onstack[stack[k]] == stacklev)
      && (forall j, k :: 0 <= j < k < sp ==> stack[j] != stack[k])
      && (forall v :: 0 <= v < onstack.Length ==> onstack[v] <= stacklev)
      && (forall v :: 0 <= v < onstack.Length && onstack[v] == stacklev ==> v in stack[..sp])
    }

    lemma RoomToPush(x: int)
      requires StackOk() && 0 <= x < onstack.Length && onstack[x] != stacklev
      ensures sp < stack.Length
    {
      if sp == stack.Length {
        AllOccur(stack[..sp], sp, x);
      }
    }

    method Push(x: int)
      requires Valid() && StackOk() && 0 <= x < G.nv
      modifies `sp, onstack, stack
      ensures StackOk() && Snap() == old(Snap())
      ensures Stk() == if x in old(Stk()) then old(Stk()) else old(Stk()) + [x]
    {
      if onstack[x] != stacklev {
        RoomToPush(x);
        onstack[x] := stacklev;
        stack[sp] := x;
        sp := sp + 1;
        assert stack[..sp] == old(stack[..sp]) + [x];
      }
    }

    method Pop() returns (x: int)
      requires Valid() && StackOk() && sp > 0
      modifies `sp, onstack
      ensures StackOk() && Snap() == old(Snap())
      ensures old(Stk()) == Stk() + [x] && 0 <= x < G.nv && x !in Stk()
    {
      sp := sp - 1;
      x := stack[sp];
      onstack[x] := 0;
      assert old(stack[..sp]) == stack[..sp] + [x];
    }

    method ResetStack()
      requires Valid() && StackOk()
      modifies `sp, `stacklev
      ensures StackOk() && Stk() == [] && Snap() == old(Snap())
    {
      stacklev := stacklev + 1;
      sp := 0;
    }

    // --- Classifying one edge -----------------------------------------------

    method ClassOut(v: int, w: int, en: int)
      requires Valid() && Consistent(G, Snap()) && Ends(G, en, v, w) && cls[en] == DUNNO
      requires Rationed(G, Snap(), trail)
      modifies cls, dout, `trail
      ensures 0 <= v < G.nv && 0 <= w < G.nv && v != w
      ensures Snap() == MarkOut(old(Snap()), v, w, en) && Consistent(G, Snap())
      ensures Extends(G, old(Snap()), old(trail), Snap(), trail)
      ensures Rationed(G, Snap(), trail)
    {
      MarkOutConsistent(G, Snap(), v, w, en);
      UndoOut(G, Snap(), v, w, en);
      dout[v] := dout[v] + 1;
      dout[w] := dout[w] + 1;
      cls[en] := NO;
      ghost var before := trail;
      trail := trail + [en];
      ExtendsEdge(G, old(Snap()), before, Snap(), en);
      ExtendsRationed(G, old(Snap()), before, Snap(), trail);
    }

    /** The first half of classin: class and degrees. */
    method SetIn(v: int, w: int, en: int)
      requires Valid() && Consistent(G, Snap()) && Ends(G, en, v, w) && cls[en] == DUNNO
      modifies cls, din, `trail
      ensures 0 <= v < G.nv && 0 <= w < G.nv && v != w
      ensures Snap() == MarkIn(old(Snap()), v, w, en) && Consistent(G, Snap())
      ensures Extends(G, old(Snap()), old(trail), Snap(), trail) && |trail| == |old(trail)| + 1
      ensures Spent(Snap().cls, G.ne) == Spent(old(Snap()).cls, G.ne) + 5
    {
      MarkInConsistent(G, Snap(), v, w, en);
      UndoIn(G, Snap(), v, w, en);
      din[v] := din[v] + 1;
      din[w] := din[w] + 1;
      cls[en] := YES;
      ghost var before := trail;
      trail := trail + [en];
      ExtendsEdge(G, old(Snap()), before, Snap(), en);
    }

    /** The second half of classin: the far ends of the joined path. */
    method LinkEnds(fv: int, fw: int)
      requires Valid() && Consistent(G, Snap()) && 0 <= fv < G.nv && 0 <= fw < G.nv
      modifies farend, `trail
      ensures Snap() == Link(old(Snap()), fv, fw) && Consistent(G, Snap())
      ensures Leads(G, old(Snap()), old(trail), Snap(), trail) && |trail| == |old(trail)| + 4
    {
      LinkConsistent(G, Snap(), fv, fw);
      ExtendsLink(G, Snap(), trail, fv, fw);
      trail := trail + [farend[fv], -fv - 1, farend[fw], -fw - 1];
      farend[fv] := fw;
      farend[fw] := fv;
    }

    /** Chooses edge en = vw. When the two ends of the path this forms are joined by
        an unclassified edge, that edge is classified too: chosen if the path
        visits every vertex, rejected otherwise. */
    method ClassIn(v: int, w: int, en: int, nin: int, ghost a: int, ghost b: int) returns (nin': int)
      requires Valid() && StackOk() && Consistent(G, Snap()) && Ends(G, en, v, w) && cls[en] == DUNNO
      requires Mode(G, Snap(), nin, a, b) && ((a == -1 && b == -1) || (a == v && b == w && nin == G.nv - 1))
      requires Rationed(G, Snap(), trail)
      modifies cls, din, dout, farend, onstack, stack, `sp, `trail
      ensures StackOk() && Consistent(G, Snap()) && Mode(G, Snap(), nin', -1, -1)
      ensures Extends(G, old(Snap()), old(trail), Snap(), trail)
      ensures Chosen(old(Snap()), Snap(), v, w, en, old(Stk()), Stk())
      ensures ChosenSound(G, old(Snap()).cls, Snap().cls, en)
      ensures Rationed(G, Snap(), trail)
      decreases Unclassified(cls[..]), 0
    {
      hide Rationed, Mode, Consistent, Chosen, ChosenSound, Settled, Forces, Extends, Leads, Spent, StackOk, Stk, Wf;
      ghost var s0, t0, k0 := Snap(), trail, Stk();
      SetIn(v, w, en);
      JustChosen(G, s0, v, w, en, k0);
      nin' := nin + 1;
      FarInRange(G, s0, v, w);
      InMode(G, s0, nin, a, b, v, w, en);
      ghost var s1, t1 := Snap(), trail;
      ExtendsRationed(G, s0, t0, s1, t1);
      if nin' == G.nv {
        return;
      }
      var fv, fw := farend[v], farend[w];
      LinkEnds(fv, fw);
      ghost var s2, t2 := Snap(), trail;
      ExtendsJoin(G, s0, t0, s1, t1, s2, t2);
      ExtendsRationed(G, s0, t0, s2, t2);
      nin' := SettleChord(fv, fw, nin');
      ExtendsTrans(G, s0, t0, s2, t2, Snap(), trail);
      ChosenThenSettled(G, s0, s2, Snap(), v, w, en, k0, Stk());
    }

    /** The tail of classin: classifies the edge between the ends fv and fw of the
        path just formed, if there is one and it is unclassified. */
    method SettleChord(fv: int, fw: int, nin: int) returns (nin': int)
      requires Valid() && StackOk() && Consistent(G, Snap()) && 0 <= fv < G.nv && 0 <= fw < G.nv
      requires Mode(G, Snap(), nin, fv, fw) && nin != G.nv
      requires Rationed(G, Snap(), trail)
      modifies cls, din, dout, farend, onstack, stack, `sp, `trail
      ensures StackOk() && Consistent(G, Snap()) && Mode(G, Snap(), nin', -1, -1)
      ensures Extends(G, old(Snap()), old(trail), Snap(), trail)
      ensures Settled(old(Snap()), Snap(), old(Stk()), Stk())
      ensures Forces(G, old(Snap()).cls, Snap().cls)
      ensures Rationed(G, Snap(), trail)
      decreases Unclassified(cls[..]), 2
    {
      hide Rationed, Mode, Consistent, Settled, Forces, Extends, HamSet, Compat, Ends, Wf, StackOk, Stk;
      ghost var s0, t0, k0 := Snap(), trail, Stk();
      nin' := nin;
      RowSized(G, fv);
      NothingDone(G, s0, t0, k0);
      if !Listed(G.g[fv], fw) {
        NoSlot(G, s0, nin, fv, fw);
        return;
      }
      var i := SlotOf(G.g[fv], fw);
      SlotEnds(G, fv, fw, i);
      var e := G.eno[fv][i];
      if cls[e] == DUNNO {
        ChordSound(G, s0, nin, fv, fw, i, e);
        Push(fv);
        Push(fw);
        ghost var k1 := Stk();
        nin' := ClassifyChord(fv, fw, e, nin);
        SettledWiden(s0, Snap(), k0, k1, Stk());
      } else {
        ChordClassified(G, s0, nin, fv, fw, i);
      }
    }

    /** The unclassified edge e = vw between the ends of a path, both stacked. */
    method ClassifyChord(v: int, w: int, e: int, nin: int) returns (nin': int)
      requires Valid() && StackOk() && Consistent(G, Snap()) && Ends(G, e, v, w) && cls[e] == DUNNO
      requires Mode(G, Snap(), nin, v, w) && nin != G.nv
      requires v in Stk() && w in Stk()
      requires forall H :: HamSet(G, H) && Compat(G, Snap().cls, H) ==> if nin == G.nv - 1 then e in H else e !in H
      requires Rationed(G, Snap(), trail)
      modifies cls, din, dout, farend, onstack, stack, `sp, `trail
      ensures StackOk() && Consistent(G, Snap()) && Mode(G, Snap(), nin', -1, -1)
      ensures Extends(G, old(Snap()), old(trail), Snap(), trail)
      ensures Settled(old(Snap()), Snap(), old(Stk()), Stk())
      ensures Forces(G, old(Snap()).cls, Snap().cls)
      ensures Rationed(G, Snap(), trail)
      decreases Unclassified(cls[..]), 1
    {
      ghost var s0, k0 := Snap(), Stk();
      nin' := nin;
      if nin == G.nv - 1 {
        nin' := ClassIn(v, w, e, nin, v, w);
        ForcedChoice(G, s0, Snap(), e, v, w, k0, k0, Stk());
      } else {
        ClassOut(v, w, e);
        OutMode(G, s0, nin, v, w, v, w, e);
        ForcedRejection(G, s0, e, v, w, k0, k0);
      }
    }

    // --- Propagation --------------------------------------------------------

    /** One round of the loop for a vertex that rejects an edge: slot i of v is
        chosen if it is unclassified. */
    method ChooseSlot(v: int, i: int, nin: int) returns (nin': int)
      requires Valid() && StackOk() && Consistent(G, Snap()) && 0 <= v < G.nv && 0 <= i < 3
      requires Mode(G, Snap(), nin, -1, -1) && Resting(Snap(), v, Stk())
      requires Rationed(G, Snap(), trail)
      modifies cls, din, dout, farend, onstack, stack, `sp, `trail
      ensures StackOk() && Consistent(G, Snap()) && Mode(G, Snap(), nin', -1, -1)
      ensures Resting(Snap(), v, Stk()) && 0 <= G.eno[v][i] <= G.ne && cls[G.eno[v][i]] != DUNNO
      ensures Extends(G, old(Snap()), old(trail), Snap(), trail)
      ensures Advanced(G, old(Snap()), Snap(), old(Stk()), Stk())
      ensures Rationed(G, Snap(), trail)
    {
      hide Rationed, Mode, Consistent, Resting, Advanced, Extends, Wf, StackOk, Stk, Ends, Chosen, ChosenSound;
      ghost var s0, t0, k0 := Snap(), trail, Stk();
      nin' := nin;
      RowSized(G, v);
      SlotRange(G, s0, v, i);
      var e := G.eno[v][i];
      if cls[e] == DUNNO {
        SlotReal(G, s0, v, i);
        var w := G.g[v][i];
        SlotEnds(G, v, w, i);
        nin' := ClassIn(v, w, e, nin, -1, -1);
        ghost var k1 := Stk();
        Push(w);
        ChosenAdvances(G, s0, Snap(), v, w, i, k0, k1, Stk());
      } else {
        NothingDone(G, s0, t0, k0);
        NothingAdvanced(G, s0, k0);
      }
    }

    /** Chooses every unclassified edge at a vertex that already rejects one. */
    method ChooseRest(v: int, nin: int) returns (nin': int)
      requires Valid() && StackOk() && Consistent(G, Snap()) && 0 <= v < G.nv
      requires Mode(G, Snap(), nin, -1, -1) && Resting(Snap(), v, Stk())
      requires Rationed(G, Snap(), trail)
      modifies cls, din, dout, farend, onstack, stack, `sp, `trail
      ensures StackOk() && Consistent(G, Snap()) && Mode(G, Snap(), nin', -1, -1)
      ensures StableExcept(Snap(), Stk())
      ensures Extends(G, old(Snap()), old(trail), Snap(), trail)
      ensures Advanced(G, old(Snap()), Snap(), old(Stk()), Stk())
      ensures Rationed(G, Snap(), trail)
    {
      hide Rationed, Mode, Consistent, Resting, Advanced, Extends, Wf, StackOk, Stk, StableExcept;
      ghost var s0, t0, k0 := Snap(), trail, Stk();
      NothingDone(G, s0, t0, k0);
      NothingAdvanced(G, s0, k0);
      RowSized(G, v);
      SlotRange(G, s0, v, 0);
      SlotRange(G, s0, v, 1);
      SlotRange(G, s0, v, 2);
      nin' := nin;
      for i := 0 to 3
        invariant StackOk() && Consistent(G, Snap()) && Mode(G, Snap(), nin', -1, -1)
        invariant Resting(Snap(), v, Stk()) && Rationed(G, Snap(), trail)
        invariant forall j :: 0 <= j < i ==> cls[G.eno[v][j]] != DUNNO
        invariant Extends(G, s0, t0, Snap(), trail)
        invariant Advanced(G, s0, Snap(), k0, Stk())
      {
        ghost var s1, t1, k1 := Snap(), trail, Stk();
        nin' := ChooseSlot(v, i, nin');
        ExtendsTrans(G, s0, t0, s1, t1, Snap(), trail);
        AdvancedTrans(G, s0, s1, Snap(), k0, k1, Stk());
        AdvancedGrows(G, s1, Snap(), k1, Stk());
      }
      AllClassified(G, Snap(), v, Stk());
    }

    /** What propagate does with the vertex it popped. */
    method Examine(v: int, nin: int) returns (status: int, nin': int)
      requires Valid() && StackOk() && Consistent(G, Snap()) && 0 <= v < G.nv
      requires Mode(G, Snap(), nin, -1, -1) && StableExcept(Snap(), Stk() + [v])
      requires Rationed(G, Snap(), trail)
      modifies cls, din, dout, farend, onstack, stack, `sp, `trail
      ensures StackOk() && Consistent(G, Snap()) && Mode(G, Snap(), nin', -1, -1)
      ensures status == DUNNO || status == NO
      ensures status == DUNNO ==> StableExcept(Snap(), Stk())
      ensures status == NO ==> NoHam(G, old(Snap()).cls)
      ensures Extends(G, old(Snap()), old(trail), Snap(), trail)
      ensures Advanced(G, old(Snap()), Snap(), old(Stk()), Stk())
      ensures Rationed(G, Snap(), trail)
    {
      hide Rationed, Mode, Consistent, Resting, Advanced, Extends, Wf, StackOk, Stk, StableExcept, NoHam, Ends;
      ghost var s0, t0, k0 := Snap(), trail, Stk();
      status, nin' := DUNNO, nin;
      RowSized(G, v);
      NothingDone(G, s0, t0, k0);
      NothingAdvanced(G, s0, k0);
      CountRange(G, s0, v);
      if dout[v] == 0 {
        if din[v] == 2 {
          var i := 2;
          SlotRange(G, s0, v, 0);
          SlotRange(G, s0, v, 1);
          if cls[G.eno[v][0]] == DUNNO { i := 0; }
          else if cls[G.eno[v][1]] == DUNNO { i := 1; }
          ThirdEdge(G, s0, v, i);
          var w := G.g[v][i];
          SlotEnds(G, v, w, i);
          OutMode(G, s0, nin, -1, -1, v, w, G.eno[v][i]);
          ClassOut(v, w, G.eno[v][i]);
          Push(w);
          ThirdRejected(G, s0, v, w, i, k0, Stk());
        } else if din[v] == 3 {
          Overloaded(G, s0, v);
          status := NO;
        } else {
          AlreadyStable(s0, v, k0);
        }
      } else if dout[v] == 1 {
        StartResting(s0, v, k0);
        nin' := ChooseRest(v, nin);
      } else {
        Overloaded(G, s0, v);
        status := NO;
      }
    }

    /** Works off the stack until a contradiction shows or every vertex rests. */
    method Propagate(nin: int) returns (status: int, nin': int)
      requires Valid() && StackOk() && Consistent(G, Snap()) && G.nv > 0
      requires Mode(G, Snap(), nin, -1, -1) && StableExcept(Snap(), Stk())
      requires Rationed(G, Snap(), trail)
      modifies cls, din, dout, farend, onstack, stack, `sp, `trail
      ensures StackOk() && Consistent(G, Snap())
      ensures status == YES || status == DUNNO || status == NO
      ensures Extends(G, old(Snap()), old(trail), Snap(), trail)
      ensures Progress(G, old(Snap()), Snap())
      ensures status == NO ==> NoHam(G, old(Snap()).cls)
      ensures status == YES ==> StableExcept(Snap(), []) && Closed(G, Snap(), G.nv)
      ensures status == DUNNO ==> StableExcept(Snap(), []) && Open(G, Snap(), nin', -1, -1) && nin' < G.nv
      ensures Rationed(G, Snap(), trail)
    {
      hide Rationed, Mode, Consistent, Progress, Advanced, Extends, Wf, StackOk, StableExcept, NoHam, Open, Closed;
      ghost var s0, t0 := Snap(), trail;
      NothingDone(G, s0, t0, []);
      NothingAdvanced(G, s0, []);
      AdvancedProgress(G, s0, s0, s0, [], []);
      status, nin' := DUNNO, nin;
      while status == DUNNO && sp > 0
        invariant StackOk() && Consistent(G, Snap()) && Mode(G, Snap(), nin', -1, -1)
        invariant status == DUNNO || status == NO
        invariant status == DUNNO ==> StableExcept(Snap(), Stk())
        invariant status == NO ==> NoHam(G, s0.cls)
        invariant Extends(G, s0, t0, Snap(), trail) && Rationed(G, Snap(), trail)
        invariant Progress(G, s0, Snap())
        decreases Unclassified(cls[..]), |Stk()|
      {
        var v := Pop();
        ghost var s1, t1, k1 := Snap(), trail, Stk();
        status, nin' := Examine(v, nin');
        ExtendsTrans(G, s0, t0, s1, t1, Snap(), trail);
        AdvancedProgress(G, s0, s1, Snap(), k1, Stk());
        AdvancedSmaller(G, s1, Snap(), k1, Stk());
        if status == NO {
          NoHamBefore(G, s0, s1);
        }
      }
      if status != NO {
        StackEmpty();
        AtRest(G, Snap(), nin');
      }
      if status != NO && nin' == G.nv {
        status := YES;
      }
    }

    lemma StackEmpty()
      requires StackOk() && sp <= 0
      ensures Stk() == []
    {
    }

    // --- Undoing ------------------------------------------------------------

    method UndoOne(k: int, ghost s0: State)
      requires Valid() && 0 <= k < |trail| && Rewinds(G, Snap(), trail, s0, k)
      modifies cls, din, dout, farend, `trail
      ensures Rewinds(G, Snap(), trail, s0, k) && k <= |trail| < |old(trail)| && trail <= old(trail)
    {
      ghost var s1, n := Snap(), |trail|;
      var p := trail[|trail| - 1];
      if p >= 0 {
        assert NumberedEdge(G, p);
        trail := trail[..|trail| - 1];
        if cls[p] == YES {
          din[G.v1[p]] := din[G.v1[p]] - 1;
          din[G.v2[p]] := din[G.v2[p]] - 1;
        } else {
          dout[G.v1[p]] := dout[G.v1[p]] - 1;
          dout[G.v2[p]] := dout[G.v2[p]] - 1;
        }
        cls[p] := DUNNO;
        assert Snap() == UndoEdge(G, s1, p);
      } else {
        var q := trail[|trail| - 2];
        trail := trail[..|trail| - 2];
        farend[-p - 1] := q;
        assert Snap() == s1.(farend := s1.farend[-p - 1 := q]);
      }
      RewindsLength(G, Snap(), trail, s0, k);
    }

    /** Pops the trail down to length k and so restores the state s0 it had then. */
    method UndoTo(k: int, ghost s0: State)
      requires Valid() && 0 <= k <= |trail| && Rewinds(G, Snap(), trail, s0, k)
      modifies cls, din, dout, farend, `trail
      ensures Snap() == s0 && trail == old(trail)[..k]
    {
      while |trail| > k
        invariant k <= |trail| && trail <= old(trail) && Rewinds(G, Snap(), trail, s0, k)
        decreases |trail|
      {
        UndoOne(k, s0);
      }
    }

    // --- The recursion ------------------------------------------------------

    /** A node of the search tree, and all nodes below it. Every node entered is
        counted, and the search is cut off at the first node beyond the limit. */
    method HamNode(nin0: int) returns (status: int, ghost tree: Tree)
      requires Valid() && StackOk() && Consistent(G, Snap()) && G.nv > 0
      requires Mode(G, Snap(), nin0, -1, -1) && StableExcept(Snap(), Stk())
      requires Rationed(G, Snap(), trail)
      modifies this, cls, din, dout, farend, onstack, stack
      ensures StackOk() && maxnodes == old(maxnodes)
      ensures status == YES || status == NO || status == HABORT
      ensures tree.entry == old(Snap()) && tree.status == status && Explored(G, tree)
      ensures nodecount == old(nodecount) + |Nodes(tree)|
      ensures status == HABORT ==> maxnodes != NO_LIMIT && nodecount == Max(old(nodecount), maxnodes) + 1
      ensures status != HABORT && maxnodes != NO_LIMIT ==> nodecount <= maxnodes
      ensures Extends(G, old(Snap()), old(trail), Snap(), trail)
      ensures status == NO ==> NoHam(G, old(Snap()).cls)
      ensures status == YES ==> Found(G, old(Snap()), Snap())
      ensures Rationed(G, Snap(), trail)
      decreases Unclassified(cls[..]), 2
    {
      hide Rationed, Mode, Consistent, Progress, Extends, Wf, StackOk, Stk, StableExcept, NoHam, Open, Closed, Found,
           SlotForced, Explored, BranchAt, Growing, Child, Nodes, NodesOf;
      ghost var s0, t0 := Snap(), trail;
      NothingDone(G, s0, t0, []);
      tree := Tree(s0, HABORT, s0, 0, []);
      OneNode(G, tree);
      nodecount := nodecount + 1;
      if nodecount > maxnodes && maxnodes != NO_LIMIT {
        return HABORT, tree;
      }
      var nin;
      status, nin := Propagate(nin0);
      ghost var s1, t1 := Snap(), trail;
      ProgressSmaller(G, s0, s1);
      if status != DUNNO {
        if status == YES {
          RestingRing(G, s0, s1);
        }
        tree := Tree(s0, status, s1, 0, []);
        OneNode(G, tree);
        return;
      }
      var v := G.nv - 1;
      while v >= 0 && din[v] != 1
        invariant -1 <= v < G.nv
        invariant forall u :: v < u < G.nv ==> din[u] != 1
      {
        v := v - 1;
      }
      if v < 0 { v := 0; }
      BranchVertex(G, s1, nin, v);
      RowSized(G, v);
      status, tree := Branch(v, nin, s0);
      if status == YES {
        ExtendsTrans(G, s0, t0, s1, t1, Snap(), trail);
      } else if status == NO {
        NoHamBefore(G, s0, s1);
      }
    }

    /** Tries the unclassified edges at v in turn, until one leads to a ring or the
        search is cut off. */
    method Branch(v: int, nin: int, ghost s0: State) returns (status: int, ghost tree: Tree)
      requires Valid() && StackOk() && Consistent(G, Snap()) && Progress(G, s0, Snap()) && BranchAt(Snap(), v)
      requires Mode(G, Snap(), nin, -1, -1) && StableExcept(Snap(), []) && Paths(G, Snap()) && 0 <= v < G.nv
      requires HasSlots(G, Snap(), v) && Snap().dout[v] == 0 && OpenSlots(G, Snap(), v, 3) != []
      requires Rationed(G, Snap(), trail) && (maxnodes != NO_LIMIT ==> nodecount <= maxnodes)
      modifies this, cls, din, dout, farend, onstack, stack
      ensures StackOk() && maxnodes == old(maxnodes)
      ensures status == YES || status == NO || status == HABORT
      ensures tree.entry == s0 && tree.status == status && Explored(G, tree)
      ensures nodecount == old(nodecount) - 1 + |Nodes(tree)|
      ensures status == HABORT ==> maxnodes != NO_LIMIT && nodecount == maxnodes + 1
      ensures status != HABORT && maxnodes != NO_LIMIT ==> nodecount <= maxnodes
      ensures status != YES ==> Snap() == old(Snap()) && trail == old(trail)
      ensures status == NO ==> NoHam(G, old(Snap()).cls)
      ensures status == YES ==> Found(G, s0, Snap()) && Extends(G, old(Snap()), old(trail), Snap(), trail)
      ensures Rationed(G, Snap(), trail)
      decreases Unclassified(cls[..]), 1
    {
      hide Rationed, Mode, Consistent, Progress, Extends, Wf, StackOk, Stk, StableExcept, NoHam, Paths, Found,
           SlotForced, Explored, BranchAt, Growing, Child, Nodes, NodesOf;
      ghost var s1, t1 := Snap(), trail;
      ghost var kids: seq<Tree> := [];
      status := DUNNO;
      NoKids(G, s1, v);
      NoNodes();
      RowSized(G, v);
      for i := 0 to 3
        invariant StackOk() && Snap() == s1 && trail == t1 && maxnodes == old(maxnodes)
        invariant nodecount == old(nodecount) + |NodesOf(kids)|
        invariant maxnodes != NO_LIMIT ==> nodecount <= maxnodes
        invariant Growing(G, s1, v, i, kids) && (kids == [] <==> status == DUNNO)
        invariant status == DUNNO || status == NO
        invariant forall j :: 0 <= j < i ==> SlotForced(G, s1, v, j)
      {
        SlotRange(G, s1, v, i);
        if cls[G.eno[v][i]] == DUNNO {
          ghost var kid;
          status, kid := TryBranch(v, i, nin);
          OneMore(G, s1, v, i, kids, kid);
          if status != NO {
            Grown(G, s0, s1, v, i, kids, kid);
            tree := Tree(s0, status, s1, v, kids + [kid]);
            OneAndKids(tree);
          }
          if status == YES {
            FoundBefore(G, s0, s1, Snap());
            return;
          }
          if status == HABORT {
            return;
          }
          kids := kids + [kid];
        } else {
          ClassifiedForced(G, s1, v, i);
          SlotClassified(G, s1, v, i, kids);
        }
      }
      // A branch vertex has an unclassified edge, so some branch was taken.
      AllTried(G, s1, v, kids);
      AllBranches(G, s1, v);
      Exhausted(G, s0, s1, v, kids);
      tree := Tree(s0, NO, s1, v, kids);
      OneAndKids(tree);
    }

    /** Rejects edge e = vw and leaves only its two ends on the stack. */
    method Reject(v: int, w: int, e: int, nin: int)
      requires Valid() && StackOk() && Consistent(G, Snap()) && Ends(G, e, v, w) && cls[e] == DUNNO
      requires 0 <= v < G.nv && 0 <= w < G.nv && v != w
      requires Mode(G, Snap(), nin, -1, -1) && StableExcept(Snap(), [])
      requires Rationed(G, Snap(), trail)
      modifies cls, dout, onstack, stack, `sp, `stacklev, `trail
      ensures Snap() == MarkOut(old(Snap()), v, w, e)
      ensures StackOk() && Consistent(G, Snap()) && Mode(G, Snap(), nin, -1, -1) && StableExcept(Snap(), Stk())
      ensures Extends(G, old(Snap()), old(trail), Snap(), trail)
      ensures Unclassified(Snap().cls) < Unclassified(old(Snap()).cls)
      ensures Rationed(G, Snap(), trail)
    {
      hide Rationed, Mode, Consistent, Extends, Wf, StackOk, Stk, StableExcept;
      ghost var s0 := Snap();
      OutMode(G, s0, nin, -1, -1, v, w, e);
      ClassOut(v, w, e);
      ResetStack();
      Push(v);
      Push(w);
      RejectedPending(G, s0, v, w, e, Stk());
    }

    /** Rejects the edge in slot i of v and searches on; unless a cycle is found the
        state is put back exactly. */
    method TryBranch(v: int, i: int, nin: int) returns (status: int, ghost kid: Tree)
      requires Valid() && StackOk() && Consistent(G, Snap()) && 0 <= v < G.nv && 0 <= i < 3
      requires Mode(G, Snap(), nin, -1, -1) && StableExcept(Snap(), [])
      requires |G.eno| == G.nv && |G.eno[v]| == 3 && 0 <= G.eno[v][i] <= G.ne && cls[G.eno[v][i]] == DUNNO
      requires Rationed(G, Snap(), trail)
      modifies this, cls, din, dout, farend, onstack, stack
      ensures StackOk() && maxnodes == old(maxnodes)
      ensures status == YES || status == NO || status == HABORT
      ensures Child(G, old(Snap()), v, i, kid) && kid.status == status && Explored(G, kid)
      ensures nodecount == old(nodecount) + |Nodes(kid)|
      ensures status == HABORT ==> maxnodes != NO_LIMIT && nodecount == Max(old(nodecount), maxnodes) + 1
      ensures status != HABORT && maxnodes != NO_LIMIT ==> nodecount <= maxnodes
      ensures status != YES ==> Snap() == old(Snap()) && trail == old(trail)
      ensures status == NO ==> SlotForced(G, old(Snap()), v, i)
      ensures status == YES ==> Found(G, old(Snap()), Snap())
      ensures status == YES ==> Extends(G, old(Snap()), old(trail), Snap(), trail)
      ensures Rationed(G, Snap(), trail)
      decreases Unclassified(cls[..]), 0
    {
      hide Rationed, Mode, Consistent, Extends, Wf, StackOk, Stk, StableExcept, NoHam, Found, SlotForced, Ends,
           Rewinds, MarkOut, Explored, Child, Nodes, NodesOf;
      ghost var s0, t0 := Snap(), trail;
      RowSized(G, v);
      SlotReal(G, s0, v, i);
      var w, e := G.g[v][i], G.eno[v][i];
      SlotEnds(G, v, w, i);
      var mark := |trail|;
      Reject(v, w, e, nin);
      ghost var s1, t1 := Snap(), trail;
      status, kid := HamNode(nin);
      IsChild(G, s0, v, i, kid);
      ExtendsTrans(G, s0, t0, s1, t1, Snap(), trail);
      if status == YES {
        FoundAfterOut(G, s0, v, w, e, Snap());
      } else {
        UndoBase(G, s0, t0, Snap(), trail);
        UndoTo(mark, s0);
        if status == NO {
          RejectedForced(G, s0, v, w, i);
        }
      }
    }

    // --- The external interface ---------------------------------------------

    constructor (graph: Cub, limit: int)
      requires Wf(graph)
      ensures Valid() && G == graph && maxnodes == limit && nodecount == 0
      ensures fresh({cls, din, dout, farend, onstack, stack})
    {
      G := graph;
      cls := new int[graph.ne + 1];
      din := new int[graph.nv];
      dout := new int[graph.nv];
      farend := new int[graph.nv];
      onstack := new int[graph.nv];
      stack := new int[graph.nv];
      sp, stacklev, trail, nodecount, maxnodes := 0, 1, [], 0, limit;
    }

    /** Clears everything left over from an earlier call. */
    method Clear()
      requires Valid()
      modifies `sp, `stacklev, cls, din, dout, farend, onstack
      ensures StackOk() && Stk() == []
      ensures forall e :: 0 <= e < G.ne ==> cls[e] == DUNNO
      ensures 3 * G.nv > 2 * G.ne ==> cls[G.ne] == NO
      ensures forall v :: 0 <= v < G.nv ==> din[v] == 0 && dout[v] == 0 && farend[v] == v
    {
      for i := G.ne downto 0
        invariant forall e :: i <= e < G.ne ==> cls[e] == DUNNO
      {
        cls[i] := DUNNO;
      }
      if 3 * G.nv > 2 * G.ne {
        cls[G.ne] := NO;
      }
      for i := G.nv downto 0
        invariant forall e :: 0 <= e < G.ne ==> cls[e] == DUNNO
        invariant 3 * G.nv > 2 * G.ne ==> cls[G.ne] == NO
        invariant forall v :: i <= v < G.nv ==> din[v] == 0 && dout[v] == 0 && farend[v] == v && onstack[v] == 0
      {
        din[i], dout[i] := 0, 0;
        farend[i] := i;
        onstack[i] := 0;
      }
      stacklev := 0;
      stacklev := stacklev + 1;
      sp := 0;
    }

    /** Rejects the padding of vertices of degree two and stacks them; fails when a
        vertex has fewer than two neighbours. */
    method Begin() returns (ok: bool)
      requires Valid()
      modifies this, cls, din, dout, farend, onstack, stack
      ensures StackOk() && maxnodes == old(maxnodes) && nodecount == old(nodecount)
      ensures !ok ==> exists v :: 0 <= v < G.nv && G.g[v][1] < 0
      ensures ok ==> StartState(G, Snap()) && StableExcept(Snap(), Stk())
    {
      hide StartVertex, StartState, StableExcept, Simple, StackOk, Stk;
      Clear();
      for i := G.nv downto 0
        invariant StackOk() && maxnodes == old(maxnodes) && nodecount == old(nodecount)
        invariant forall e :: 0 <= e < G.ne ==> cls[e] == DUNNO
        invariant 3 * G.nv > 2 * G.ne ==> cls[G.ne] == NO
        invariant forall v :: 0 <= v < i ==> dout[v] == 0
        invariant forall v :: 0 <= v < G.nv ==> din[v] == 0 && farend[v] == v
        invariant forall v :: i <= v < G.nv ==> StartVertex(G, Snap(), v)
        invariant forall v :: i <= v < G.nv && G.g[v][2] < 0 ==> v in Stk()
      {
        if G.g[i][1] < 0 {
          return false;
        }
        ghost var s0 := Snap();
        if G.g[i][2] < 0 {
          dout[i] := 1;
          Push(i);
        }
        StartFrame(G, s0, Snap(), i);
      }
      StartReady(G, Snap(), Stk());
      return true;
    }

    /** Applies one entry of the initial classification. */
    method InitEdge(i: int, x: int, nin: int) returns (status: int, nin': int)
      requires Valid() && StackOk() && Consistent(G, Snap()) && 0 <= i < G.ne && (x == YES || x == NO)
      requires Mode(G, Snap(), nin, -1, -1) && StableExcept(Snap(), Stk())
      requires Rationed(G, Snap(), trail)
      modifies cls, din, dout, farend, onstack, stack, `sp, `trail
      ensures StackOk() && Consistent(G, Snap())
      ensures Mode(G, Snap(), nin', -1, -1) && StableExcept(Snap(), Stk())
      ensures status == DUNNO || status == NO
      ensures Grows(old(Snap()).cls, Snap().cls)
      ensures status == DUNNO ==> cls[i] == x
      ensures InitSound(G, old(Snap()).cls, Snap().cls, i, x, status)
      ensures Rationed(G, Snap(), trail)
    {
      hide Rationed, Mode, Consistent, StackOk, Stk, StableExcept, Chosen, ChosenSound, Extends, Wf, InitSound, Grows;
      ghost var s0, k0 := Snap(), Stk();
      InitNothing(G, s0, i, x);
      status, nin' := DUNNO, nin;
      EdgeEnds(G, i);
      var v, w := G.v1[i], G.v2[i];
      if x == NO {
        if cls[i] == YES {
          status := NO;
        } else if cls[i] == DUNNO {
          if dout[v] == 0 {
            OutMode(G, s0, nin, -1, -1, v, w, i);
            ClassOut(v, w, i);
            Push(v);
            Push(w);
            InitOut(G, s0, v, w, i, k0, Stk());
          } else {
            InitRefused(G, s0, v, w, i, x);
            status := NO;
          }
        }
      } else {
        if cls[i] == NO {
          status := NO;
        } else if cls[i] == DUNNO {
          if din[v] < 2 {
            nin' := ClassIn(v, w, i, nin, -1, -1);
            ghost var k1 := Stk();
            Push(v);
            Push(w);
            InitIn(G, s0, Snap(), v, w, i, k0, k1, Stk());
          } else {
            InitRefused(G, s0, v, w, i, x);
            status := NO;
          }
        }
      }
    }

    /** Applies the initial classification until it is exhausted or contradicts
        itself. */
    method ApplyInit(init: seq<int>) returns (status: int, nin: int)
      requires Valid() && StackOk() && Consistent(G, Snap()) && G.ne <= |init|
      requires Mode(G, Snap(), 0, -1, -1) && StableExcept(Snap(), Stk()) && Untouched(G, Snap().cls)
      requires Rationed(G, Snap(), trail)
      modifies cls, din, dout, farend, onstack, stack, `sp, `trail
      ensures StackOk() && Consistent(G, Snap())
      ensures Mode(G, Snap(), nin, -1, -1) && StableExcept(Snap(), Stk())
      ensures status == DUNNO || status == NO
      ensures status == NO ==> NoHam(G, init)
      ensures status == DUNNO ==> InitDone(G, init, Snap().cls, G.ne)
      ensures Rationed(G, Snap(), trail)
    {
      hide Rationed, Mode, Consistent, StackOk, Stk, StableExcept, Wf, InitSound, InitDone, NoHam, Grows, Untouched;
      status, nin := DUNNO, 0;
      InitFresh(G, init, Snap().cls);
      var i := 0;
      while i < G.ne && status == DUNNO
        invariant 0 <= i <= G.ne
        invariant StackOk() && Consistent(G, Snap()) && Rationed(G, Snap(), trail)
        invariant Mode(G, Snap(), nin, -1, -1) && StableExcept(Snap(), Stk())
        invariant status == DUNNO || status == NO
        invariant status == NO ==> NoHam(G, init)
        invariant status == DUNNO ==> InitDone(G, init, Snap().cls, i)
      {
        ghost var c0 := Snap().cls;
        if init[i] == YES || init[i] == NO {
          status, nin := InitEdge(i, init[i], nin);
          InitStep(G, init, c0, Snap().cls, i, status);
        } else {
          InitSkip(G, init, c0, i);
        }
        i := i + 1;
      }
    }

    /** Reads the ring of chosen edges off, starting from vertex 0. */
    method ReadCycle() returns (cycle: seq<int>)
      requires Valid() && Finished(G, Snap()) && G.nv > 0
      ensures Ring(G, cls[..], cycle) && |cycle| == G.nv && cycle[0] == 0
    {
      hide Finished, Ring, Consistent, Wf;
      ghost var s := Snap();
      ghost var r := RingOf(G, s);
      var v, w := 0, -1;
      cycle := [0];
      RingFacts(G, s, r);
      ghost var turned := r;
      for i := 1 to G.nv
        invariant |cycle| == i && cycle[0] == 0 && 0 <= v < G.nv && v == cycle[i - 1]
        invariant i == 1 ==> w == -1 && v == 0
        invariant Ring(G, s.cls, turned) && |turned| == G.nv
        invariant i > 1 ==> cycle == turned[..i] && w == turned[i - 2]
        invariant forall x :: 0 <= x < G.nv ==> din[x] == 2
      {
        RowSized(G, v);
        WalkOn(G, s, v, w);
        var j := 0;
        while G.g[v][j] == w || cls[G.eno[v][j]] != YES
          invariant 0 <= j < 3
          invariant forall k :: 0 <= k < j ==> G.g[v][k] == w || cls[G.eno[v][k]] != YES
          decreases 3 - j
        {
          j := j + 1;
        }
        if i == 1 {
          turned := RingFrom(G, s, r, j);
          RingFacts(G, s, turned);
        } else {
          WalkStep(G, s, turned, i - 1, j);
        }
        w := v;
        v := G.g[v][j];
        cycle := cycle + [v];
        RingRange(G, s, turned, i);
      }
      assert cycle == turned;
    }

    /** Finds a Hamiltonian cycle that uses every edge classified YES and no edge
        classified NO, or reports that there is none. */
    method CubHam(init: seq<int>)
        returns (status: int, cycle: seq<int>, outclass: seq<int>, ghost trees: seq<Tree>)
      requires Valid() && G.nv > 0 && G.ne <= |init|
      modifies this, cls, din, dout, farend, onstack, stack
      ensures maxnodes == old(maxnodes)
      ensures status == YES || status == NO || status == HABORT
      ensures nodecount == old(nodecount) + |NodesOf(trees)| && |trees| <= 1
      ensures forall t :: t in trees ==> t.status == status && Explored(G, t) && InitDone(G, init, t.entry.cls, G.ne)
      ensures trees == [] ==> status == NO
      ensures status == HABORT ==> maxnodes != NO_LIMIT && nodecount == Max(old(nodecount), maxnodes) + 1
      ensures status != HABORT && maxnodes != NO_LIMIT && trees != [] ==> nodecount <= maxnodes
      ensures status == NO ==> forall c :: IsHamCycle(G, c) ==> !Agrees(G, init, c)
      ensures status == YES ==> IsHamCycle(G, cycle) && Agrees(G, init, cycle)
      ensures status == YES ==> |cycle| > 0 && cycle[0] == 0
      ensures status == YES ==>
                |outclass| == G.ne && forall e :: 0 <= e < G.ne ==> outclass[e] == if Uses(G, cycle, e) then YES else NO
    {
      hide Rationed, Mode, Consistent, StackOk, Stk, StableExcept, Wf, NoHam, InitDone, StartState, Found, Finished,
           Extends, IsHamCycle, Agrees, Uses, Ring, Untouched, Explored, Nodes, NodesOf;
      cycle, outclass, trees := [], [], [];
      NoNodes();
      var ok := Begin();
      if !ok {
        status := NO;
        NoneWithLowDegree(G);
        return;
      }
      StartConsistent(G, Snap());
      StartOpen(G, Snap());
      StartUntouched(G, Snap());
      trail := [];
      NothingSpent(G, Snap());
      var nin;
      status, nin := ApplyInit(init);
      ghost var s1 := Snap();
      if status == DUNNO {
        ghost var tree;
        status, tree := HamNode(nin);
        trees := [tree];
        NodesSnoc([], tree);
        assert [] + [tree] == trees;
        if status == NO {
          InitNoHam(G, init, s1.cls);
        }
      }
      if status == NO {
        NoHamNoCycle(G, init);
      }
      if status == YES {
        FoundFinished(G, s1, Snap());
        cycle := ReadCycle();
        outclass := cls[..G.ne];
        Answer(G, init, s1, Snap(), cycle);
      }
    }
  }

  /** No edge has been classified. */
  ghost predicate Untouched(G: Cub, c: seq<int>) {
    |c| == G.ne + 1 && forall e :: 0 <= e < G.ne ==> c[e] == DUNNO
  }

  /** The first i entries of init are in effect, and no Hamiltonian edge set that
      agrees with init has been lost. */
  ghost predicate InitDone(G: Cub, init: seq<int>, c: seq<int>, i: int) {
    && Sized(G) && |init| >= G.ne && |c| == G.ne + 1 && 0 <= i <= G.ne
    && (forall e :: 0 <= e < i && (init[e] == YES || init[e] == NO) ==> c[e] == init[e])
    && forall H :: HamSet(G, H) && Compat(G, init, H) ==> Compat(G, c, H)
  }

  lemma InitFresh(G: Cub, init: seq<int>, c: seq<int>)
    requires Wf(G) && |init| >= G.ne && Untouched(G, c)
    ensures InitDone(G, init, c, 0)
  {
  }

  lemma InitStep(G: Cub, init: seq<int>, c0: seq<int>, c1: seq<int>, i: int, status: int)
    requires InitDone(G, init, c0, i) && i < G.ne && (init[i] == YES || init[i] == NO)
    requires Grows(c0, c1) && InitSound(G, c0, c1, i, init[i], status)
    requires status == DUNNO ==> c1[i] == init[i]
    ensures status == DUNNO ==> InitDone(G, init, c1, i + 1)
    ensures status == NO ==> NoHam(G, init)
  {
  }

  lemma InitSkip(G: Cub, init: seq<int>, c: seq<int>, i: int)
    requires InitDone(G, init, c, i) && i < G.ne && init[i] != YES && init[i] != NO
    ensures InitDone(G, init, c, i + 1)
  {
  }

  lemma InitNoHam(G: Cub, init: seq<int>, c: seq<int>)
    requires InitDone(G, init, c, G.ne) && NoHam(G, c)
    ensures NoHam(G, init)
  {
  }

  lemma StartUntouched(G: Cub, s: State)
    requires StartState(G, s)
    ensures Untouched(G, s.cls)
  {
  }

  lemma NoHamNoCycle(G: Cub, init: seq<int>)
    requires Wf(G) && NoHam(G, init)
    ensures forall c :: IsHamCycle(G, c) ==> !Agrees(G, init, c)
  {
    forall c | IsHamCycle(G, c) ensures !Agrees(G, init, c) {
      HamCycleIsHamSet(G, c);
      if Agrees(G, init, c) {
        AgreesIsCompat(G, init, c);
      }
    }
  }

  lemma NoneWithLowDegree(G: Cub)
    requires Wf(G) && exists v :: 0 <= v < G.nv && G.g[v][1] < 0
    ensures forall c :: !IsHamCycle(G, c)
  {
    var v :| 0 <= v < G.nv && G.g[v][1] < 0;
    forall c ensures !IsHamCycle(G, c) {
      if IsHamCycle(G, c) {
        TwoNeighbours(G, v, c);
      }
    }
  }

  lemma FoundFinished(G: Cub, s0: State, s1: State)
    requires Found(G, s0, s1)
    ensures Finished(G, s1)
  {
  }

  lemma RingOf(G: Cub, s: State) returns (r: seq<int>)
    requires Finished(G, s)
    ensures Consistent(G, s) && Ring(G, s.cls, r)
    ensures forall x :: 0 <= x < G.nv ==> s.din[x] == 2
  {
    r :| Ring(G, s.cls, r);
  }

  lemma RingFacts(G: Cub, s: State, r: seq<int>)
    requires Consistent(G, s) && Ring(G, s.cls, r)
    ensures |r| == G.nv >= 3
  {
  }

  lemma RingRange(G: Cub, s: State, r: seq<int>, i: int)
    requires Consistent(G, s) && Ring(G, s.cls, r) && 0 <= i < |r|
    ensures 0 <= r[i] < G.nv
  {
    assert StepOk(G, r, i);
  }

  /** The ring found answers the question that was asked. */
  lemma Answer(G: Cub, init: seq<int>, s0: State, s1: State, c: seq<int>)
    requires InitDone(G, init, s0.cls, G.ne) && Found(G, s0, s1) && Ring(G, s1.cls, c)
    ensures IsHamCycle(G, c) && Agrees(G, init, c)
    ensures forall e :: 0 <= e < G.ne ==> s1.cls[e] == if Uses(G, c, e) then YES else NO
  {
    forall e | 0 <= e < G.ne ensures s1.cls[e] == if Uses(G, c, e) then YES else NO {
      AllDecided(G, s1, e);
      RingEdges(G, s1, c, e);
    }
  }

  lemma StartReady(G: Cub, s: State, k: seq<int>)
    requires Wf(G) && Lengths(G, s)
    requires forall e :: 0 <= e < G.ne ==> s.cls[e] == DUNNO
    requires 3 * G.nv > 2 * G.ne ==> s.cls[G.ne] == NO
    requires forall v :: 0 <= v < G.nv ==> StartVertex(G, s, v)
    requires forall v :: 0 <= v < G.nv && G.g[v][2] < 0 ==> v in k
    ensures StartState(G, s) && StableExcept(s, k)
  {
    StartStable(G, s, k);
  }

  lemma StartFrame(G: Cub, s0: State, s1: State, i: int)
    requires Wf(G) && Lengths(G, s0) && Lengths(G, s1) && 0 <= i < G.nv && G.g[i][1] >= 0
    requires s0.dout[i] == 0 && s0.din[i] == 0 && s0.farend[i] == i
    requires s1.din == s0.din && s1.farend == s0.farend
    requires s1.dout == s0.dout[i := Bit(G.g[i][2] < 0)]
    requires forall v :: i < v < G.nv ==> StartVertex(G, s0, v)
    ensures forall v :: i <= v < G.nv ==> StartVertex(G, s1, v)
  {
    forall v | i <= v < G.nv ensures StartVertex(G, s1, v) {
      if v > i {
        assert StartVertex(G, s0, v);
      }
    }
  }

  /** The entry x for edge i was applied without losing a Hamiltonian edge set, and
      was refused only if there is none. */
  ghost predicate InitSound(G: Cub, c0: seq<int>, c1: seq<int>, i: int, x: int, status: int) {
    && Sized(G) && |c0| == |c1| == G.ne + 1 && 0 <= i < G.ne
    && forall H :: HamSet(G, H) && Compat(G, c0, H) && (i in H <==> x == YES) ==> status == DUNNO && Compat(G, c1, H)
  }

  lemma EdgeEnds(G: Cub, i: int)
    requires Wf(G) && 0 <= i < G.ne
    ensures |G.v1| == |G.v2| == G.ne
    ensures 0 <= G.v1[i] < G.v2[i] < G.nv && Ends(G, i, G.v1[i], G.v2[i])
  {
    assert NumberedEdge(G, i);
  }

  lemma InitNothing(G: Cub, s: State, i: int, x: int)
    requires Consistent(G, s) && 0 <= i < G.ne && (x == YES || x == NO)
    ensures Grows(s.cls, s.cls)
    ensures s.cls[i] == YES || s.cls[i] == NO || s.cls[i] == DUNNO
    ensures s.cls[i] == x ==> InitSound(G, s.cls, s.cls, i, x, DUNNO)
    ensures s.cls[i] != x && s.cls[i] != DUNNO ==> InitSound(G, s.cls, s.cls, i, x, NO)
  {
  }

  lemma InitOut(G: Cub, s: State, v: int, w: int, i: int, k0: seq<int>, k1: seq<int>)
    requires Consistent(G, s) && 0 <= v < G.nv && 0 <= w < G.nv && v != w && 0 <= i < G.ne && s.cls[i] == DUNNO
    requires StableExcept(s, k0) && k0 <= k1 && v in k1 && w in k1
    ensures Grows(s.cls, MarkOut(s, v, w, i).cls) && StableExcept(MarkOut(s, v, w, i), k1)
    ensures InitSound(G, s.cls, MarkOut(s, v, w, i).cls, i, NO, DUNNO)
  {
    assert forall u :: u in k0 ==> u in k1;
    forall u | 0 <= u < |s.din| ensures u in k1 || Stable(MarkOut(s, v, w, i), u) {
      assert u in k0 || Stable(s, u);
    }
  }

  lemma InitIn(G: Cub, s: State, s1: State, v: int, w: int, i: int, k0: seq<int>, k1: seq<int>, k2: seq<int>)
    requires Consistent(G, s) && Consistent(G, s1) && 0 <= v < G.nv && 0 <= w < G.nv && 0 <= i < G.ne
    requires StableExcept(s, k0) && Chosen(s, s1, v, w, i, k0, k1) && ChosenSound(G, s.cls, s1.cls, i)
    requires k1 <= k2 && v in k2 && w in k2
    ensures Grows(s.cls, s1.cls) && s1.cls[i] == YES && StableExcept(s1, k2)
    ensures InitSound(G, s.cls, s1.cls, i, YES, DUNNO)
  {
    assert forall u :: u in k0 || u in k1 ==> u in k2;
    forall u | 0 <= u < |s1.din| ensures u in k2 || Stable(s1, u) {
      assert u in k0 || Stable(s, u);
    }
  }

  /** A second rejected or a third chosen edge at v is impossible. */
  lemma InitRefused(G: Cub, s: State, v: int, w: int, i: int, x: int)
    requires Consistent(G, s) && 0 <= v < G.nv && Ends(G, i, v, w) && s.cls[i] == DUNNO
    requires (x == NO && s.dout[v] != 0) || (x == YES && s.din[v] >= 2)
    ensures InitSound(G, s.cls, s.cls, i, x, NO)
  {
    assert NumberedEdge(G, i);
    var j := SlotOf(G.eno[v], i);
    CountRange(G, s, v);
    forall H | HamSet(G, H) && Compat(G, s.cls, H) ensures i in H <==> x == NO {
      LocalDegree(G, s, H, v);
      assert s.cls[G.eno[v][j]] == DUNNO;
    }
  }

  /** The edge in slot i of v is classified, or every Hamiltonian edge set uses it. */
  ghost predicate SlotForced(G: Cub, s: State, v: int, i: int) {
    && Consistent(G, s) && 0 <= v < G.nv && 0 <= i < 3 && 0 <= G.eno[v][i] <= G.ne
    && (s.cls[G.eno[v][i]] == DUNNO ==>
          forall H :: HamSet(G, H) && Compat(G, s.cls, H) ==> G.eno[v][i] in H)
  }

  /** A node without children. */
  lemma OneNode(G: Cub, t: Tree)
    requires t.kids == []
    requires t.status == YES ==> Found(G, t.entry, t.rest)
    requires t.status == NO ==> NoHam(G, t.entry.cls)
    ensures Explored(G, t) && |Nodes(t)| == 1
  {
  }

  lemma NoNodes()
    ensures NodesOf([]) == []
  {
  }

  lemma AllTried(G: Cub, s: State, v: int, kids: seq<Tree>)
    requires Growing(G, s, v, 3, kids) && OpenSlots(G, s, v, 3) != []
    ensures kids != []
  {
  }

  lemma OneAndKids(t: Tree)
    ensures |Nodes(t)| == 1 + |NodesOf(t.kids)|
  {
  }

  /** The node entered after rejecting slot i of v is a child there. */
  lemma IsChild(G: Cub, s: State, v: int, i: int, kid: Tree)
    requires Consistent(G, s) && 0 <= v < G.nv && 0 <= i < 3 && 0 <= G.g[v][i] < G.nv && 0 <= G.eno[v][i] <= G.ne
    requires s.cls[G.eno[v][i]] == DUNNO && kid.entry == MarkOut(s, v, G.g[v][i], G.eno[v][i])
    ensures Child(G, s, v, i, kid)
  {
    SlotRange(G, s, v, 0);
    SlotRange(G, s, v, 1);
    SlotRange(G, s, v, 2);
  }

  lemma ProgressSmaller(G: Cub, s0: State, s1: State)
    requires Progress(G, s0, s1)
    ensures Unclassified(s1.cls) <= Unclassified(s0.cls)
  {
  }

  lemma RestingRing(G: Cub, s0: State, s1: State)
    requires Consistent(G, s1) && Progress(G, s0, s1) && StableExcept(s1, []) && Closed(G, s1, G.nv)
    ensures Found(G, s0, s1)
  {
  }

  lemma FoundBefore(G: Cub, s0: State, s1: State, s2: State)
    requires Progress(G, s0, s1) && Found(G, s1, s2)
    ensures Found(G, s0, s2)
  {
  }

  lemma FoundAfterOut(G: Cub, s0: State, v: int, w: int, e: int, s2: State)
    requires 0 <= v < |s0.dout| && 0 <= w < |s0.dout| && 0 <= e < |s0.cls| && s0.cls[e] == DUNNO
    requires Found(G, MarkOut(s0, v, w, e), s2)
    ensures Found(G, s0, s2)
  {
  }

  lemma UndoBase(G: Cub, s0: State, t0: seq<int>, s1: State, t1: seq<int>)
    requires Wf(G) && Extends(G, s0, t0, s1, t1)
    ensures |t0| <= |t1| && t1[..|t0|] == t0 && Rewinds(G, s1, t1, s0, |t0|)
  {
  }

  lemma RejectedPending(G: Cub, s: State, v: int, w: int, e: int, k: seq<int>)
    requires Consistent(G, s) && 0 <= v < G.nv && 0 <= w < G.nv && 0 <= e < G.ne && s.cls[e] == DUNNO
    requires StableExcept(s, []) && v in k && w in k
    ensures StableExcept(MarkOut(s, v, w, e), k)
    ensures Unclassified(MarkOut(s, v, w, e).cls) < Unclassified(s.cls)
  {
    ClassifyCount(s.cls, e, NO);
    forall u | 0 <= u < |s.din| ensures u in k || Stable(MarkOut(s, v, w, e), u) {
      assert Stable(s, u);
    }
  }

  lemma RejectedForced(G: Cub, s: State, v: int, w: int, i: int)
    requires Consistent(G, s) && 0 <= v < G.nv && 0 <= w < G.nv && 0 <= i < 3
    requires 0 <= G.eno[v][i] < G.ne && NoHam(G, MarkOut(s, v, w, G.eno[v][i]).cls)
    ensures SlotForced(G, s, v, i)
  {
    var e := G.eno[v][i];
    forall H | HamSet(G, H) && Compat(G, s.cls, H) ensures e in H {
      assert e !in H ==> Compat(G, MarkOut(s, v, w, e).cls, H);
    }
  }

  lemma ClassifiedForced(G: Cub, s: State, v: int, i: int)
    requires Consistent(G, s) && 0 <= v < G.nv && 0 <= i < 3 && 0 <= G.eno[v][i] <= G.ne
    requires s.cls[G.eno[v][i]] != DUNNO
    ensures SlotForced(G, s, v, i)
  {
  }

  lemma AllBranches(G: Cub, s: State, v: int)
    requires Consistent(G, s) && 0 <= v < G.nv && s.dout[v] == 0
    requires forall j :: 0 <= j < 3 ==> SlotForced(G, s, v, j)
    ensures NoHam(G, s.cls)
  {
    assert SlotForced(G, s, v, 0) && SlotForced(G, s, v, 1) && SlotForced(G, s, v, 2);
    forall i, H | 0 <= i < 3 && s.cls[G.eno[v][i]] == DUNNO && HamSet(G, H) && Compat(G, s.cls, H)
      ensures G.eno[v][i] in H
    {
      assert SlotForced(G, s, v, i);
    }
    BranchesCover(G, s, v);
  }

  /** The vertex chosen for branching rejects no edge, and some edge there is still
      unclassified. */
  lemma BranchVertex(G: Cub, s: State, nin: int, v: int)
    requires Consistent(G, s) && Open(G, s, nin, -1, -1) && StableExcept(s, []) && 0 <= v < G.nv
    requires BranchAt(s, v)
    ensures BranchAt(s, v) && HasSlots(G, s, v) && Paths(G, s) && s.dout[v] == 0
    ensures forall i :: 0 <= i < 3 ==> 0 <= G.eno[v][i] <= G.ne
    ensures OpenSlots(G, s, v, 3) != []
    ensures Mode(G, s, nin, -1, -1)
  {
    assert Stable(s, v);
    if s.din[v] != 1 {
      var P, owner :| Partition(G, s, nin, P, owner, -1, -1);
      PartMember(G, s, nin, P, owner, -1, -1, owner[v], v);
      var p := P[owner[v]];
      assert s.din[p[0]] == Bit(0 < |p| - 1);
      assert |p| == 1;
    }
    Row(G, v);
    assert Counted(G, s, v);
    assert NumberedSlot(G, v, 0) && NumberedSlot(G, v, 1) && NumberedSlot(G, v, 2);
    var i := if s.cls[G.eno[v][0]] == DUNNO then 0 else 1;
    assert i in OpenSlots(G, s, v, 3);
  }

  lemma AdvancedProgress(G: Cub, s0: State, s1: State, s2: State, k1: seq<int>, k2: seq<int>)
    requires s0 == s1 || Progress(G, s0, s1)
    requires Advanced(G, s1, s2, k1, k2)
    ensures Progress(G, s0, s2)
  {
  }

  lemma AdvancedSmaller(G: Cub, s0: State, s1: State, k0: seq<int>, k1: seq<int>)
    requires Advanced(G, s0, s1, k0, k1)
    ensures Unclassified(s1.cls) < Unclassified(s0.cls) || (s0.cls == s1.cls && k0 == k1)
  {
  }

  lemma NoHamBefore(G: Cub, s0: State, s1: State)
    requires Progress(G, s0, s1) && NoHam(G, s1.cls)
    ensures NoHam(G, s0.cls)
  {
  }

  lemma RestingNotFull(s: State)
    requires StableExcept(s, [])
    ensures !Overfull(s)
  {
    forall v | 0 <= v < |s.din| ensures s.din[v] <= 2 {
      assert v in [] || Stable(s, v);
    }
  }

  /** With no vertex left to examine, no vertex is overfull, and the number of
      chosen edges tells a ring from disjoint paths. */
  lemma AtRest(G: Cub, s: State, nin: int)
    requires Consistent(G, s) && Mode(G, s, nin, -1, -1) && StableExcept(s, []) && G.nv > 0
    ensures if nin == G.nv then Closed(G, s, nin) else Open(G, s, nin, -1, -1) && nin < G.nv
  {
    RestingNotFull(s);
    if Open(G, s, nin, -1, -1) {
      var P, owner :| Partition(G, s, nin, P, owner, -1, -1);
      assert owner[0] in P;
    }
  }

  lemma CountRange(G: Cub, s: State, v: int)
    requires Consistent(G, s) && 0 <= v < G.nv
    ensures 0 <= s.din[v] && 0 <= s.dout[v] && s.din[v] + s.dout[v] <= 3
  {
    Row(G, v);
    assert Counted(G, s, v);
  }

  /** A vertex with two chosen edges and no rejected one has one edge left, in the
      slot that the code falls back to. */
  lemma ThirdEdge(G: Cub, s: State, v: int, i: int)
    requires Consistent(G, s) && 0 <= v < G.nv && 0 <= i < 3
    requires 0 <= G.eno[v][0] <= G.ne && 0 <= G.eno[v][1] <= G.ne
    requires s.din[v] == 2 && s.dout[v] == 0
    requires i < 2 ==> s.cls[G.eno[v][i]] == DUNNO
    requires i == 2 ==> s.cls[G.eno[v][0]] != DUNNO && s.cls[G.eno[v][1]] != DUNNO
    ensures 0 <= G.g[v][i] < G.nv && G.g[v][i] != v
    ensures 0 <= G.eno[v][i] < G.ne && s.cls[G.eno[v][i]] == DUNNO && Ends(G, G.eno[v][i], v, G.g[v][i])
  {
    Row(G, v);
    assert Counted(G, s, v);
    assert NumberedSlot(G, v, 0) && NumberedSlot(G, v, 1) && NumberedSlot(G, v, 2);
  }

  lemma ThirdRejected(G: Cub, s: State, v: int, w: int, i: int, k0: seq<int>, k1: seq<int>)
    requires Consistent(G, s) && 0 <= v < G.nv && 0 <= w < G.nv && v != w && 0 <= i < 3
    requires s.din[v] == 2 && s.dout[v] == 0
    requires 0 <= G.eno[v][i] < G.ne && s.cls[G.eno[v][i]] == DUNNO
    requires StableExcept(s, k0 + [v]) && k0 <= k1 && w in k1
    ensures Advanced(G, s, MarkOut(s, v, w, G.eno[v][i]), k0, k1)
    ensures StableExcept(MarkOut(s, v, w, G.eno[v][i]), k1)
  {
    var e := G.eno[v][i];
    var s1 := MarkOut(s, v, w, e);
    ClassifyCount(s.cls, e, NO);
    forall H | HamSet(G, H) && Compat(G, s.cls, H) ensures Compat(G, s1.cls, H) {
      LocalDegree(G, s, H, v);
    }
    assert forall u :: u in k0 ==> u in k1;
    forall u | 0 <= u < |s1.din| ensures u in k1 || Stable(s1, u) {
      assert u in k0 + [v] || Stable(s, u);
    }
  }

  lemma AlreadyStable(s: State, v: int, k: seq<int>)
    requires StableExcept(s, k + [v]) && 0 <= v < |s.din| && s.dout[v] == 0 && s.din[v] <= 1
    ensures StableExcept(s, k)
  {
    forall u | 0 <= u < |s.din| ensures u in k || Stable(s, u) {
      assert u in k + [v] || Stable(s, u);
    }
  }

  lemma StartResting(s: State, v: int, k: seq<int>)
    requires StableExcept(s, k + [v]) && 0 <= v < |s.din| && s.dout[v] == 1
    ensures Resting(s, v, k)
  {
  }

  /** v, which rejects an edge, is being examined: it has not lost its second
      unit of rejection without being stacked, and all others are stable or stacked. */
  ghost predicate Resting(s: State, v: int, k: seq<int>) {
    && |s.din| == |s.dout| && 0 <= v < |s.dout|
    && s.dout[v] >= 1 && (s.dout[v] == 1 || v in k)
    && StableExcept(s, k + [v])
  }

  /** The classes grew by forced classifications only, and the stack grew only if
      some edge was classified. */
  ghost predicate Advanced(G: Cub, s0: State, s1: State, k0: seq<int>, k1: seq<int>) {
    && |s0.cls| == |s1.cls| == G.ne + 1
    && k0 <= k1 && Grows(s0.cls, s1.cls) && Forces(G, s0.cls, s1.cls)
    && (Unclassified(s1.cls) < Unclassified(s0.cls) || (s0.cls == s1.cls && k0 == k1))
  }

  lemma NothingAdvanced(G: Cub, s: State, k: seq<int>)
    requires Consistent(G, s)
    ensures Advanced(G, s, s, k, k)
  {
  }

  lemma AdvancedTrans(G: Cub, s0: State, s1: State, s2: State, k0: seq<int>, k1: seq<int>, k2: seq<int>)
    requires Sized(G) && Advanced(G, s0, s1, k0, k1) && Advanced(G, s1, s2, k1, k2)
    ensures Advanced(G, s0, s2, k0, k2)
  {
  }

  lemma AdvancedGrows(G: Cub, s0: State, s1: State, k0: seq<int>, k1: seq<int>)
    requires Sized(G) && Advanced(G, s0, s1, k0, k1)
    ensures Grows(s0.cls, s1.cls)
  {
  }

  lemma SlotRange(G: Cub, s: State, v: int, i: int)
    requires Consistent(G, s) && 0 <= v < G.nv && 0 <= i < 3
    ensures 0 <= G.eno[v][i] <= G.ne
  {
    Row(G, v);
    assert NumberedSlot(G, v, i);
  }

  lemma SlotReal(G: Cub, s: State, v: int, i: int)
    requires Consistent(G, s) && 0 <= v < G.nv && 0 <= i < 3
    requires 0 <= G.eno[v][i] <= G.ne && s.cls[G.eno[v][i]] == DUNNO
    ensures 0 <= G.g[v][i] < G.nv && G.g[v][i] != v
  {
    Row(G, v);
    assert Counted(G, s, v);
    assert NumberedSlot(G, v, i);
  }

  lemma ChosenAdvances(G: Cub, s0: State, s1: State, v: int, w: int, i: int, k0: seq<int>, k1: seq<int>, k2: seq<int>)
    requires Consistent(G, s0) && Consistent(G, s1) && 0 <= v < G.nv && 0 <= i < 3 && 0 <= G.eno[v][i] < G.ne
    requires Resting(s0, v, k0) && s0.cls[G.eno[v][i]] == DUNNO
    requires Chosen(s0, s1, v, w, G.eno[v][i], k0, k1) && ChosenSound(G, s0.cls, s1.cls, G.eno[v][i])
    requires k1 <= k2 && w in k2
    ensures Resting(s1, v, k2) && Advanced(G, s0, s1, k0, k2)
    ensures s1.cls[G.eno[v][i]] != DUNNO
  {
    assert k0 <= k2 && forall u :: u in k0 || u in k1 ==> u in k2;
    forall u | 0 <= u < |s1.din| ensures u in k2 + [v] || Stable(s1, u) {
      assert u in k0 + [v] || Stable(s0, u);
    }
    forall H | HamSet(G, H) && Compat(G, s0.cls, H) ensures Compat(G, s1.cls, H) {
      LocalDegree(G, s0, H, v);
    }
  }

  /** When the three edges of v are classified, v is at rest or stacked. */
  lemma AllClassified(G: Cub, s: State, v: int, k: seq<int>)
    requires Consistent(G, s) && Resting(s, v, k) && 0 <= v < G.nv
    requires forall j :: 0 <= j < 3 ==> 0 <= G.eno[v][j] <= G.ne && s.cls[G.eno[v][j]] != DUNNO
    ensures StableExcept(s, k)
  {
    Row(G, v);
    assert Counted(G, s, v);
    assert NumberedSlot(G, v, 0) && NumberedSlot(G, v, 1) && NumberedSlot(G, v, 2);
    forall u | 0 <= u < G.nv ensures u in k || Stable(s, u) {
      assert u in k + [v] || Stable(s, u);
    }
  }


  lemma RowSized(G: Cub, v: int)
    requires Wf(G) && 0 <= v < G.nv
    ensures |G.g| == |G.eno| == G.nv && |G.g[v]| == 3 && |G.eno[v]| == 3
  {
  }

  lemma NothingDone(G: Cub, s: State, t: seq<int>, k: seq<int>)
    requires Consistent(G, s)
    ensures Extends(G, s, t, s, t) && Settled(s, s, k, k) && Forces(G, s.cls, s.cls)
  {
    assert Rewinds(G, s, t, s, |t|);
  }

  lemma SettledWiden(s0: State, s1: State, k0: seq<int>, k1: seq<int>, k2: seq<int>)
    requires k0 <= k1 && Settled(s0, s1, k1, k2)
    ensures Settled(s0, s1, k0, k2)
  {
  }

  lemma SlotEnds(G: Cub, v: int, w: int, i: int)
    requires Wf(G) && 0 <= v < G.nv && 0 <= w < G.nv && 0 <= i < 3 && G.g[v][i] == w
    ensures 0 <= G.eno[v][i] < G.ne && Ends(G, G.eno[v][i], v, w)
  {
    Row(G, v);
    assert NumberedSlot(G, v, i);
  }

  lemma NoSlot(G: Cub, s: State, nin: int, a: int, b: int)
    requires Consistent(G, s) && Mode(G, s, nin, a, b) && 0 <= a < G.nv && 0 <= b
    requires !Listed(G.g[a], b)
    ensures Mode(G, s, nin, -1, -1)
  {
    Row(G, a);
    NoChord(G, s, nin, a, b);
  }

  /** The slot found is the only one, so its class decides whether there is a chord. */
  lemma ChordClassified(G: Cub, s: State, nin: int, a: int, b: int, i: int)
    requires Consistent(G, s) && Mode(G, s, nin, a, b) && 0 <= a < G.nv && 0 <= i < 3 && 0 <= b
    requires G.g[a][i] == b && 0 <= G.eno[a][i] <= G.ne && s.cls[G.eno[a][i]] != DUNNO
    ensures Mode(G, s, nin, -1, -1)
  {
    Row(G, a);
    NoChord(G, s, nin, a, b);
  }

  lemma ChordSound(G: Cub, s: State, nin: int, a: int, b: int, i: int, e: int)
    requires Consistent(G, s) && Mode(G, s, nin, a, b) && nin != G.nv
    requires 0 <= a < G.nv && 0 <= b < G.nv && 0 <= i < 3 && G.g[a][i] == b
    requires e == G.eno[a][i] && 0 <= e < G.ne && s.cls[e] == DUNNO
    ensures forall H :: HamSet(G, H) && Compat(G, s.cls, H) ==> if nin == G.nv - 1 then e in H else e !in H
  {
    forall H | HamSet(G, H) && Compat(G, s.cls, H)
      ensures if nin == G.nv - 1 then e in H else e !in H
    {
      LinkedChord(G, s, nin, a, b, i, H);
    }
  }

  lemma ForcedChoice(G: Cub, s0: State, s1: State, e: int, v: int, w: int, k0: seq<int>, k1: seq<int>, k2: seq<int>)
    requires Sized(G) && |s0.cls| >= G.ne && |s1.cls| >= G.ne
    requires Chosen(s0, s1, v, w, e, k1, k2) && k0 <= k1 && v in k1 && w in k1
    requires ChosenSound(G, s0.cls, s1.cls, e)
    requires forall H :: HamSet(G, H) && Compat(G, s0.cls, H) ==> e in H
    ensures Settled(s0, s1, k0, k2) && Forces(G, s0.cls, s1.cls)
  {
    assert k1 <= k2;
    assert forall u :: u in k1 ==> u in k2;
  }

  lemma ForcedRejection(G: Cub, s0: State, e: int, v: int, w: int, k0: seq<int>, k1: seq<int>)
    requires Sized(G) && |s0.cls| == G.ne + 1 && |s0.din| == |s0.dout| && 0 <= e < G.ne
    requires 0 <= v < |s0.dout| && 0 <= w < |s0.dout| && s0.cls[e] == DUNNO
    requires k0 <= k1 && v in k1 && w in k1
    requires forall H :: HamSet(G, H) && Compat(G, s0.cls, H) ==> e !in H
    ensures Settled(s0, MarkOut(s0, v, w, e), k0, k1) && Forces(G, s0.cls, MarkOut(s0, v, w, e).cls)
  {
    ClassifyCount(s0.cls, e, NO);
  }

  lemma JustChosen(G: Cub, s: State, v: int, w: int, en: int, k: seq<int>)
    requires Consistent(G, s) && 0 <= v < G.nv && 0 <= w < G.nv && v != w && Ends(G, en, v, w) && s.cls[en] == DUNNO
    ensures Unclassified(MarkIn(s, v, w, en).cls) < Unclassified(s.cls)
    ensures Chosen(s, MarkIn(s, v, w, en), v, w, en, k, k) && ChosenSound(G, s.cls, MarkIn(s, v, w, en).cls, en)
  {
    ClassifyCount(s.cls, en, YES);
  }

  lemma FarInRange(G: Cub, s: State, v: int, w: int)
    requires Consistent(G, s) && 0 <= v < G.nv && 0 <= w < G.nv
    ensures 0 <= s.farend[v] < G.nv && 0 <= s.farend[w] < G.nv
  {
  }

  lemma ChosenThenSettled(G: Cub, s0: State, s2: State, s3: State, v: int, w: int, en: int, k0: seq<int>, k1: seq<int>)
    requires Consistent(G, s0) && Consistent(G, s3)
    requires 0 <= v < G.nv && 0 <= w < G.nv && v != w && 0 <= en < G.ne
    requires s0.cls[en] == DUNNO && s2.cls == s0.cls[en := YES]
    requires s2.din == MarkIn(s0, v, w, en).din && s2.dout == s0.dout
    requires Settled(s2, s3, k0, k1) && Forces(G, s2.cls, s3.cls)
    ensures Chosen(s0, s3, v, w, en, k0, k1) && ChosenSound(G, s0.cls, s3.cls, en)
  {
    ClassifyCount(s0.cls, en, YES);
  }

  /** Only stacked vertices changed their counters. */
  ghost predicate Settled(s0: State, s1: State, k0: seq<int>, k1: seq<int>) {
    && |s1.din| == |s0.din| && |s1.dout| == |s0.dout| && |s0.din| == |s0.dout|
    && k0 <= k1
    && Grows(s0.cls, s1.cls) && Unclassified(s1.cls) <= Unclassified(s0.cls)
    && (forall u :: 0 <= u < |s0.din| ==> s1.dout[u] >= s0.dout[u])
    && (forall u :: 0 <= u < |s0.din| && u !in k1 ==> s1.dout[u] == s0.dout[u] && s1.din[u] == s0.din[u])
  }

  /** Choosing vw changed the counters of v, w and of stacked vertices only. */
  ghost predicate Chosen(s0: State, s1: State, v: int, w: int, en: int, k0: seq<int>, k1: seq<int>) {
    && |s1.din| == |s0.din| && |s1.dout| == |s0.dout| && |s0.din| == |s0.dout|
    && 0 <= en < |s0.cls| == |s1.cls| && s1.cls[en] == YES
    && k0 <= k1
    && Grows(s0.cls, s1.cls) && Unclassified(s1.cls) < Unclassified(s0.cls)
    && (forall u :: 0 <= u < |s0.din| ==> s1.dout[u] >= s0.dout[u])
    && (forall u :: 0 <= u < |s0.din| && u !in k1 ==>
          s1.dout[u] == s0.dout[u] && s1.din[u] == s0.din[u] + Bit(u == v || u == w))
  }

  /** A Hamiltonian edge set that agrees with c0 and uses en agrees with c1. */
  ghost predicate ChosenSound(G: Cub, c0: seq<int>, c1: seq<int>, en: int) {
    && Sized(G) && |c0| >= G.ne && |c1| >= G.ne
    && forall H :: HamSet(G, H) && Compat(G, c0, H) && en in H ==> Compat(G, c1, H)
  }
}
