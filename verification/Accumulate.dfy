/** Recording larger duplicates while the enumeration runs: the enumerator, one worker and
    the accumulator as a state machine over their queues. */
module Accumulate {
  import opened PDag
  import PDagInsert
  import opened PDagLayout
  import opened PDagSpace
  import opened PDagOffer

  /** The number of vertices among the first n that are no inputs. */
  function GatesUpTo(dag: Rows, n: nat): nat
    requires n <= |dag|
  {
    if n == 0 then 0 else GatesUpTo(dag, n - 1) + (if IsLeafNode(dag[n - 1]) then 0 else 1)
  }

  function GateCount(dag: Rows): nat {
    GatesUpTo(dag, |dag|)
  }

  /** What the callback says of a candidate: it is what is searched for, or its function
      as a number. */
  datatype Verdict = Verdict(found: bool, value: nat)

  // --- The worker's bookkeeping ---------------------------------------------

  function MinimalAfter(minimal: map<nat, nat>, size: nat, value: nat): map<nat, nat> {
    if value in minimal then minimal else minimal[value := size]
  }

  predicate IsLarger(minimal: map<nat, nat>, c: Candidate, value: nat) {
    value in minimal && minimal[value] != GateCount(c.pdag) && c.pdag == SUBGRAPH
  }

  class Accumulator {
    var minimalSizes: map<nat, nat>
    var duplicatedQueue: seq<seq<nat>>

    constructor ()
      ensures minimalSizes == map[] && duplicatedQueue == []
    {
      minimalSizes, duplicatedQueue := map[], [];
    }

    /** Notes the size of a new function, or a larger duplicate of the recorded
        structure. The second precondition is the assertion in the code. */
    method DuplicateAccumulation(c: Candidate, value: nat)
      requires value in minimalSizes ==> minimalSizes[value] <= GateCount(c.pdag)
      modifies this
      ensures minimalSizes == MinimalAfter(old(minimalSizes), GateCount(c.pdag), value)
      ensures duplicatedQueue ==
              old(duplicatedQueue) + if IsLarger(old(minimalSizes), c, value) then [c.assignments] else []
      ensures IsLarger(old(minimalSizes), c, value) <==>
              value in old(minimalSizes) && old(minimalSizes)[value] < GateCount(c.pdag) && c.pdag == SUBGRAPH
    {
      var size := 0;
      for i := 0 to |c.pdag|
        invariant size == GatesUpTo(c.pdag, i)
      {
        if !IsLeafNode(c.pdag[i]) {
          size := size + 1;
        }
      }
      if value !in minimalSizes {
        minimalSizes := minimalSizes[value := size];
        return;
      }
      assert minimalSizes[value] <= size;
      if minimalSizes[value] == size {
        return;
      }
      if c.pdag == SUBGRAPH {
        duplicatedQueue := duplicatedQueue + [c.assignments];
      }
    }
  }

  // --- The state machine ----------------------------------------------------

  /** `level` is the gate count of the DAG being enumerated; `done` are the candidates the
      worker has taken, in order; `pending` and `recorded` the duplicates under way and
      arrived. */
  datatype State = State(level: nat, queue: seq<Candidate>, done: seq<Candidate>, minimal: map<nat, nat>,
                         pending: seq<seq<nat>>, recorded: seq<seq<nat>>, stopped: bool)

  const START: State := State(0, [], [], map[], [], [], false)

  /** DAGs come in nondecreasing gate count. */
  predicate NextDagStep(s: State, t: State) {
    !s.stopped && s.level <= t.level && t == s.(level := t.level)
  }

  predicate EnqueueStep(s: State, t: State) {
    && !s.stopped && |t.queue| > 0
    && var c := t.queue[|t.queue| - 1];
       GateCount(c.pdag) == s.level && t == s.(queue := s.queue + [c])
  }

  predicate WorkStep(f: Candidate -> Verdict, s: State, t: State) {
    && !s.stopped && |s.queue| > 0
    && var c := s.queue[0];
       var taken := s.(queue := s.queue[1..], done := s.done + [c]);
       if f(c).found then t == taken.(stopped := true)
       else t == taken.(minimal := MinimalAfter(s.minimal, GateCount(c.pdag), f(c).value),
                        pending := s.pending + if IsLarger(s.minimal, c, f(c).value) then [c.assignments] else [])
  }

  predicate CollectStep(s: State, t: State) {
    !s.stopped && |s.pending| > 0 && t == s.(pending := s.pending[1..], recorded := s.recorded + [s.pending[0]])
  }

  predicate FinishStep(s: State, t: State) {
    t == s.(stopped := true)
  }

  predicate Step(f: Candidate -> Verdict, s: State, t: State) {
    NextDagStep(s, t) || EnqueueStep(s, t) || WorkStep(f, s, t) || CollectStep(s, t) || FinishStep(s, t)
  }

  predicate Behaviour(f: Candidate -> Verdict, ss: seq<State>) {
    && |ss| > 0 && ss[0] == START
    && forall i :: 0 <= i < |ss| - 1 ==> Step(f, ss[i], ss[i + 1])
  }

  // --- What every state keeps -----------------------------------------------

  predicate SizesRise(cs: seq<Candidate>) {
    forall i, j :: 0 <= i < j < |cs| ==> GateCount(cs[i].pdag) <= GateCount(cs[j].pdag)
  }

  predicate SizesUpTo(cs: seq<Candidate>, n: nat) {
    forall i :: 0 <= i < |cs| ==> GateCount(cs[i].pdag) <= n
  }

  /** The size noted for a function is that of a candidate already taken. */
  ghost predicate Noted(f: Candidate -> Verdict, done: seq<Candidate>, value: nat, size: nat) {
    exists k :: 0 <= k < |done| && IsNoted(f, done[k], value, size)
  }

  ghost predicate IsNoted(f: Candidate -> Verdict, c: Candidate, value: nat, size: nat) {
    !f(c).found && f(c).value == value && GateCount(c.pdag) == size
  }

  /** d is the assignment of a taken candidate on the recorded structure, and an earlier
      one has the same function and strictly fewer gates. */
  ghost predicate Justified(f: Candidate -> Verdict, done: seq<Candidate>, d: seq<nat>) {
    exists k, j :: 0 <= k < j < |done| && Dominates(f, done[k], done[j]) && done[j] == Candidate(SUBGRAPH, d)
  }

  ghost predicate Dominates(f: Candidate -> Verdict, c: Candidate, e: Candidate) {
    f(c).value == f(e).value && GateCount(c.pdag) < GateCount(e.pdag)
  }

  /** c is on the recorded structure, and one of the candidates before it has the same
      function and strictly fewer gates. */
  ghost predicate IsDuplicate(f: Candidate -> Verdict, before: seq<Candidate>, c: Candidate) {
    && !f(c).found && c.pdag == SUBGRAPH
    && exists k :: 0 <= k < |before| && !f(before[k]).found && Dominates(f, before[k], c)
  }

  /** The assignments of all such candidates, in the order in which they were taken. */
  ghost function Expected(f: Candidate -> Verdict, done: seq<Candidate>): seq<seq<nat>> {
    if done == [] then []
    else
      var n := |done| - 1;
      Expected(f, done[..n]) + (if IsDuplicate(f, done[..n], done[n]) then [done[n].assignments] else [])
  }

  /** A taken candidate's function has a size noted, and no larger one. */
  ghost predicate IsKnown(f: Candidate -> Verdict, minimal: map<nat, nat>, c: Candidate) {
    !f(c).found ==> f(c).value in minimal && minimal[f(c).value] <= GateCount(c.pdag)
  }

  ghost predicate Inv(f: Candidate -> Verdict, s: State) {
    && SizesRise(s.done + s.queue) && SizesUpTo(s.done + s.queue, s.level)
    && (forall v :: v in s.minimal ==> Noted(f, s.done, v, s.minimal[v]))
    && (forall k :: 0 <= k < |s.done| ==> IsKnown(f, s.minimal, s.done[k]))
    && s.recorded + s.pending == Expected(f, s.done)
    && (forall i :: 0 <= i < |s.pending| ==> Justified(f, s.done, s.pending[i]))
    && (forall i :: 0 <= i < |s.recorded| ==> Justified(f, s.done, s.recorded[i]))
  }

  /** A noted size is at most the size of every candidate queued or still to come. */
  lemma NotedIsMinimal(f: Candidate -> Verdict, s: State, v: nat)
    requires Inv(f, s) && v in s.minimal
    ensures s.minimal[v] <= s.level
    ensures forall i :: 0 <= i < |s.queue| ==> s.minimal[v] <= GateCount(s.queue[i].pdag)
  {
    hide GateCount;
    assert Noted(f, s.done, v, s.minimal[v]);
    var k :| 0 <= k < |s.done| && IsNoted(f, s.done[k], v, s.minimal[v]);
    var all := s.done + s.queue;
    assert all[k] == s.done[k];
    forall i | 0 <= i < |s.queue| ensures s.minimal[v] <= GateCount(s.queue[i].pdag) {
      assert all[|s.done| + i] == s.queue[i];
    }
  }

  lemma NotedStays(f: Candidate -> Verdict, done: seq<Candidate>, c: Candidate, v: nat, size: nat)
    requires Noted(f, done, v, size)
    ensures Noted(f, done + [c], v, size)
  {
    hide IsNoted;
    var k :| 0 <= k < |done| && IsNoted(f, done[k], v, size);
    assert (done + [c])[k] == done[k];
  }

  lemma JustifiedStays(f: Candidate -> Verdict, done: seq<Candidate>, c: Candidate, d: seq<nat>)
    requires Justified(f, done, d)
    ensures Justified(f, done + [c], d)
  {
    hide Dominates;
    var k, j :| 0 <= k < j < |done| && Dominates(f, done[k], done[j]) && done[j] == Candidate(SUBGRAPH, d);
    assert (done + [c])[k] == done[k] && (done + [c])[j] == done[j];
  }

  /** A duplicate that is noted comes after a smaller candidate with its function. */
  lemma LargerJustified(f: Candidate -> Verdict, s: State)
    requires Inv(f, s) && |s.queue| > 0 && IsLarger(s.minimal, s.queue[0], f(s.queue[0]).value)
    ensures Justified(f, s.done + [s.queue[0]], s.queue[0].assignments)
  {
    hide GateCount;
    var c := s.queue[0];
    var v := f(c).value;
    NotedIsMinimal(f, s, v);
    assert Noted(f, s.done, v, s.minimal[v]);
    var k :| 0 <= k < |s.done| && IsNoted(f, s.done[k], v, s.minimal[v]);
    var done := s.done + [c];
    assert done[k] == s.done[k] && done[|s.done|] == c;
    assert Dominates(f, done[k], done[|s.done|]);
  }

  /** Comparing with the noted size finds exactly the duplicates. */
  lemma LargerIsDuplicate(f: Candidate -> Verdict, s: State)
    requires Inv(f, s) && |s.queue| > 0 && !f(s.queue[0]).found
    ensures IsLarger(s.minimal, s.queue[0], f(s.queue[0]).value) <==> IsDuplicate(f, s.done, s.queue[0])
  {
    hide GateCount;
    var c := s.queue[0];
    var v := f(c).value;
    if v in s.minimal {
      NotedIsMinimal(f, s, v);
      assert Noted(f, s.done, v, s.minimal[v]);
      var k :| 0 <= k < |s.done| && IsNoted(f, s.done[k], v, s.minimal[v]);
      assert s.minimal[v] < GateCount(c.pdag) ==> Dominates(f, s.done[k], c);
    }
    forall k | 0 <= k < |s.done| && !f(s.done[k]).found && Dominates(f, s.done[k], c)
      ensures v in s.minimal && s.minimal[v] < GateCount(c.pdag)
    {
      assert IsKnown(f, s.minimal, s.done[k]);
    }
  }

  lemma ExpectedMore(f: Candidate -> Verdict, done: seq<Candidate>, c: Candidate)
    ensures Expected(f, done + [c]) == Expected(f, done) + if IsDuplicate(f, done, c) then [c.assignments] else []
  {
    hide IsDuplicate;
    assert (done + [c])[..|done|] == done;
  }

  lemma TakenExpected(f: Candidate -> Verdict, s: State, t: State)
    requires Inv(f, s) && WorkStep(f, s, t)
    ensures t.recorded + t.pending == Expected(f, t.done)
  {
    hide GateCount, IsLarger, IsDuplicate, Noted, Justified, SizesRise, SizesUpTo, Expected;
    var c := s.queue[0];
    ExpectedMore(f, s.done, c);
    if f(c).found {
      FoundIsNone(f, s.done, c);
      assert Expected(f, s.done) + [] == Expected(f, s.done);
    } else {
      LargerIsDuplicate(f, s);
      var more := if IsDuplicate(f, s.done, c) then [c.assignments] else [];
      assert s.recorded + (s.pending + more) == s.recorded + s.pending + more;
    }
  }

  lemma FoundIsNone(f: Candidate -> Verdict, done: seq<Candidate>, c: Candidate)
    requires f(c).found
    ensures !IsDuplicate(f, done, c)
  {
  }

  lemma WorkKeeps(f: Candidate -> Verdict, s: State, t: State)
    requires Inv(f, s) && WorkStep(f, s, t)
    ensures Inv(f, t)
  {
    TakenExpected(f, s, t);
    hide GateCount, Noted, Justified, SizesRise, SizesUpTo, Expected;
    var c := s.queue[0];
    assert t.done + t.queue == s.done + s.queue;
    forall k | 0 <= k < |t.done| ensures IsKnown(f, t.minimal, t.done[k]) {
      if k < |s.done| {
        assert IsKnown(f, s.minimal, s.done[k]);
      } else if f(c).value in s.minimal {
        NotedIsMinimal(f, s, f(c).value);
      }
    }
    forall v | v in t.minimal ensures Noted(f, t.done, v, t.minimal[v]) {
      if v in s.minimal {
        NotedStays(f, s.done, c, v, s.minimal[v]);
      } else {
        JustNoted(f, s.done, c);
      }
    }
    forall i | 0 <= i < |t.pending| ensures Justified(f, t.done, t.pending[i]) {
      if i < |s.pending| {
        JustifiedStays(f, s.done, c, s.pending[i]);
      } else {
        LargerJustified(f, s);
      }
    }
    forall i | 0 <= i < |t.recorded| ensures Justified(f, t.done, t.recorded[i]) {
      JustifiedStays(f, s.done, c, s.recorded[i]);
    }
  }

  lemma JustNoted(f: Candidate -> Verdict, done: seq<Candidate>, c: Candidate)
    requires !f(c).found
    ensures Noted(f, done + [c], f(c).value, GateCount(c.pdag))
  {
    hide GateCount;
    assert (done + [c])[|done|] == c;
    assert IsNoted(f, c, f(c).value, GateCount(c.pdag));
  }

  lemma EnqueueKeeps(f: Candidate -> Verdict, s: State, t: State)
    requires Inv(f, s) && EnqueueStep(s, t)
    ensures Inv(f, t)
  {
    hide GateCount, Noted, Justified, Expected, IsKnown;
    assert t.done + t.queue == (s.done + s.queue) + [t.queue[|t.queue| - 1]];
  }

  lemma StepKeepsInv(f: Candidate -> Verdict, s: State, t: State)
    requires Inv(f, s) && Step(f, s, t)
    ensures Inv(f, t)
  {
    hide GateCount, Noted, Justified, WorkStep, EnqueueStep, SizesRise, Expected, IsKnown;
    if WorkStep(f, s, t) {
      WorkKeeps(f, s, t);
    } else if EnqueueStep(s, t) {
      EnqueueKeeps(f, s, t);
    } else if CollectStep(s, t) {
      assert s.pending == [s.pending[0]] + s.pending[1..];
      assert t.recorded + t.pending == s.recorded + s.pending;
    }
  }

  lemma {:induction false} Reachable(f: Candidate -> Verdict, ss: seq<State>, i: nat)
    requires Behaviour(f, ss) && i < |ss|
    ensures Inv(f, ss[i])
  {
    hide Step, Inv;
    if i == 0 {
      StartInv(f);
    } else {
      Reachable(f, ss, i - 1);
      var k := i - 1;
      assert Step(f, ss[k], ss[k + 1]);
      StepKeepsInv(f, ss[i - 1], ss[i]);
    }
  }

  lemma StartInv(f: Candidate -> Verdict)
    ensures Inv(f, START)
  {
  }

  /** A size once noted stays. */
  lemma {:induction false} NotedStaysNoted(f: Candidate -> Verdict, ss: seq<State>, i: nat, j: nat, v: nat)
    requires Behaviour(f, ss) && i <= j < |ss| && v in ss[i].minimal
    ensures v in ss[j].minimal && ss[j].minimal[v] == ss[i].minimal[v]
    decreases j
  {
    hide Step;
    if i < j {
      NotedStaysNoted(f, ss, i, j - 1, v);
      var k := j - 1;
      assert Step(f, ss[k], ss[k + 1]);
      NotedStep(f, ss[j - 1], ss[j], v);
    }
  }

  lemma NotedStep(f: Candidate -> Verdict, s: State, t: State, v: nat)
    requires Step(f, s, t) && v in s.minimal
    ensures v in t.minimal && t.minimal[v] == s.minimal[v]
  {
    hide GateCount, IsLarger;
  }

  /** In every run: a size noted now is at most the gate count of every candidate that is
      queued now or at any later time. */
  lemma NotedIsLeast(f: Candidate -> Verdict, ss: seq<State>, i: nat, j: nat, v: nat)
    requires Behaviour(f, ss) && i <= j < |ss| && v in ss[i].minimal
    ensures forall k :: 0 <= k < |ss[j].queue| ==> ss[i].minimal[v] <= GateCount(ss[j].queue[k].pdag)
  {
    hide GateCount, Behaviour, Inv;
    NotedStaysNoted(f, ss, i, j, v);
    Reachable(f, ss, j);
    NotedIsMinimal(f, ss[j], v);
  }

  /** In every run: when the worker takes a candidate whose function is known, the noted
      size is at most its gate count. */
  lemma AssertionHolds(f: Candidate -> Verdict, ss: seq<State>, i: nat)
    requires Behaviour(f, ss) && i < |ss| && |ss[i].queue| > 0
    ensures var c := ss[i].queue[0];
            f(c).value in ss[i].minimal ==> ss[i].minimal[f(c).value] <= GateCount(c.pdag)
  {
    hide GateCount;
    Reachable(f, ss, i);
    if f(ss[i].queue[0]).value in ss[i].minimal {
      NotedIsMinimal(f, ss[i], f(ss[i].queue[0]).value);
    }
  }

  /** In every run: each recorded duplicate has a candidate taken before it with the same
      function and strictly fewer gates. */
  lemma RecordsJustified(f: Candidate -> Verdict, ss: seq<State>, i: nat, d: seq<nat>)
    requires Behaviour(f, ss) && i < |ss| && (d in ss[i].recorded || d in ss[i].pending)
    ensures Justified(f, ss[i].done, d)
  {
    hide Justified, Behaviour;
    Reachable(f, ss, i);
  }

  /** In every run: every candidate on the recorded structure that comes after a smaller one
      with the same function is recorded or on the way. */
  lemma RecordsComplete(f: Candidate -> Verdict, ss: seq<State>, i: nat, k: nat, j: nat)
    requires Behaviour(f, ss) && i < |ss| && k < j < |ss[i].done|
    requires !f(ss[i].done[k]).found && !f(ss[i].done[j]).found
    requires f(ss[i].done[k]).value == f(ss[i].done[j]).value
    requires GateCount(ss[i].done[k].pdag) < GateCount(ss[i].done[j].pdag) && ss[i].done[j].pdag == SUBGRAPH
    ensures ss[i].done[j].assignments in ss[i].recorded + ss[i].pending
  {
    hide Behaviour;
    Reachable(f, ss, i);
    var done := ss[i].done;
    assert Dominates(f, done[..j][k], done[j]);
    ExpectedHas(f, done, j);
  }

  lemma {:induction false} ExpectedHas(f: Candidate -> Verdict, done: seq<Candidate>, j: nat)
    requires j < |done| && IsDuplicate(f, done[..j], done[j])
    ensures done[j].assignments in Expected(f, done)
  {
    hide IsDuplicate;
    var n := |done| - 1;
    if j < n {
      assert done[..n][..j] == done[..j];
      ExpectedHas(f, done[..n], j);
    }
  }

  /** The places of the duplicates among the candidates taken. */
  ghost function Places(f: Candidate -> Verdict, done: seq<Candidate>): set<nat> {
    set j: nat | j < |done| && IsDuplicate(f, done[..j], done[j])
  }

  lemma {:induction false} ExpectedSize(f: Candidate -> Verdict, done: seq<Candidate>)
    ensures |Expected(f, done)| == |Places(f, done)|
  {
    hide IsDuplicate;
    if done != [] {
      var n := |done| - 1;
      ExpectedSize(f, done[..n]);
      forall j: nat | j < n ensures done[..n][..j] == done[..j] {
      }
      var more := if IsDuplicate(f, done[..n], done[n]) then {n} else {};
      assert Places(f, done) == Places(f, done[..n]) + more;
    }
  }

  /** In every run: each is recorded once. */
  lemma RecordedOnce(f: Candidate -> Verdict, ss: seq<State>, i: nat)
    requires Behaviour(f, ss) && i < |ss|
    ensures |ss[i].recorded| + |ss[i].pending| == |Places(f, ss[i].done)|
  {
    hide Behaviour, Places, Expected;
    Reachable(f, ss, i);
    ExpectedSize(f, ss[i].done);
    assert |ss[i].recorded + ss[i].pending| == |ss[i].recorded| + |ss[i].pending|;
  }

  // --- The gate counts of what the enumerator hands on ----------------------

  /** The rewrite of a DAG adds no gates. */
  lemma GatesKept(symbols: seq<Symbol>, duplicated: seq<seq<nat>>, g: Rows)
    requires IsDag(g, 2)
    ensures GateCount(SpaceOf(symbols, duplicated, g).dag) == |g|
  {
    hide PDagInsert.Inserted, PDagInsert.Free, Swapped, GatesUpTo, IsLeafNode;
    var dag := Swapped(PDagInsert.Inserted(g, 2));
    PDagInsert.InsertedRows(g, 2);
    forall i | 0 <= i < |dag| ensures IsLeafNode(dag[i]) <==> i < PDagInsert.Free(g) {
      LeafInFront(g, i);
      SwapKeepsLeaf(PDagInsert.Inserted(g, 2), i);
    }
    GatesCounted(dag, PDagInsert.Free(g), |dag|);
  }

  lemma {:induction false} GatesCounted(dag: Rows, z: nat, n: nat)
    requires n <= |dag| && forall i :: 0 <= i < |dag| ==> (IsLeafNode(dag[i]) <==> i < z)
    ensures GatesUpTo(dag, n) == if n <= z then 0 else n - z
  {
    hide IsLeafNode;
    if n > 0 {
      GatesCounted(dag, z, n - 1);
    }
  }

  predicate LengthsRise(pdags: seq<Rows>) {
    forall i, j :: 0 <= i < j < |pdags| ==> |pdags[i]| <= |pdags[j]|
  }

  /** DAGs in nondecreasing number of vertices give candidates in nondecreasing gate
      count. */
  lemma {:induction false} OfferedSizesRise(symbols: seq<Symbol>, duplicated: seq<seq<nat>>, pdags: seq<Rows>,
      skip: bool)
    requires LengthsRise(pdags) && forall k :: 0 <= k < |pdags| ==> IsDag(pdags[k], 2)
    ensures SizesRise(AllOffered(symbols, duplicated, pdags, skip))
    ensures |pdags| > 0 ==>
              forall i :: 0 <= i < |AllOffered(symbols, duplicated, pdags, skip)| ==>
                GateCount(AllOffered(symbols, duplicated, pdags, skip)[i].pdag) >= |pdags[0]|
  {
    hide GateCount, SpaceOf, Sticks, Offered, IsDag;
    if |pdags| > 0 {
      var s := SpaceOf(symbols, duplicated, pdags[0]);
      OfferedSizesRise(symbols, duplicated, pdags[1..], !skip && Sticks(s));
      OfferedSize(symbols, duplicated, pdags[0]);
    }
  }

  lemma OfferedSize(symbols: seq<Symbol>, duplicated: seq<seq<nat>>, g: Rows)
    requires IsDag(g, 2)
    ensures var cs := Offered(SpaceOf(symbols, duplicated, g));
            forall i :: 0 <= i < |cs| ==> GateCount(cs[i].pdag) == |g|
  {
    hide GateCount;
    GatesKept(symbols, duplicated, g);
  }
}
