# Verified models of the search and enumeration core

The project models three parts of the repository and the small arithmetic function beside them,
and proves what they promise.

**Hamiltonian cycles in graphs of maximum degree three** (`lib/nauty/cubhamg.c`). The solver
classifies edges as used or not used, propagates what follows over a stack of vertices, keeps a
table of path ends that rules out short cycles, and undoes a branch from a trail. It is modelled
as a class over arrays. Main results: the answer is right in both directions for every initial
classification; the path structure and the degree counts hold in every state; a branch that fails
is undone exactly; the node counter counts the nodes of the search tree, and a limit cuts the
search off exactly at the first node beyond it. The pair checker that reuses found cycles is
proved equal to asking every pair, and the low-point test for biconnectivity equal to the
definition by walks.

**Words in prefix notation** (`include/_old_/enumerator_old.hpp`). An odometer runs over all
words; an arity count accepts terms, a stack machine evaluates them, and a filter drops words
that look like duplicates. Main results: the filter keeps exactly the words of terms in a normal
form, each handed on once and in order, and it loses no meaning, by an explicit reduction of
every dropped word to a smaller kept one with the same value.

**Partial DAGs** (`include/_old_/partial_dag_enumerator_parallel.hpp`, and the chain functions of
`include/_old_/direct_enumerator_partial_dag.hpp`). A DAG is rewritten so that every free fan-in
has an input vertex, the assignments of symbols are walked as numbers in a mixed radix with jumps
over duplicates, cones are cut out, networks are built with memoised recursion, and larger
duplicates are recorded while the enumeration runs. Main results: for every grammar, exactly
which assignments a run hands on, when these are all that its duplicate test accepts, and when no
value is lost; the jumps rest on where the initialisation puts the inputs. The cut and the
memoised build keep the meaning, the recorded structure is characterised in terms of the DAG
before its inputs are inserted, and in every run of the state machine exactly the larger
duplicates on that structure are recorded.

## Files

| file | content |
|---|---|
| CubGraph, CubInit | graphs, edge numbers, Hamiltonian cycles and their edge sets |
| HamState, HamTrail, HamRing, HamStart | search states as values, the trail, rings and paths |
| HamTree | the nodes a search enters, and how many there can be |
| HamSearch | the solver: propagation, recursion, undo, the external call |
| HamPairs | every pair of edges, with found cycles crossing pairs off |
| Biconnected | the iterative low-point search |
| WordSyntax, WordOrder, WordPrune, WordTidy, WordEnum | terms and words, the odometer, the filter, what it keeps, the enumerator |
| Numbers | arithmetic shared by both odometers |
| HexString | truth tables of inputs as hexadecimal strings |
| PDag, PDagInsert, PDagLayout | DAGs, input insertion, the order of sibling inputs |
| MixedRadix, PDagSpace, PDagVisit | assignments as numbers, duplicates and jumps, which assignments are met |
| PDagOffer, PDagRun, PDagLoss, PDagExample | what a run hands on, the run, exactly when it loses candidates, two grammars that do |
| PDagCone, PDagRecord, PDagMeaning | cones, the recorded structure, what pruning costs in values |
| PDagBuild, PDagChain, Accumulate | building networks, operator chains, recording duplicates |

## Findings

- The duplicate test rejects inputs that are out of order for a commutative symbol or equal for an
  idempotent one. The run can hand on less than the test accepts: the jump made at equal inputs also
  passes over the reverse order of an idempotent symbol that does not commute. What a run hands on is
  stated for every grammar (`PDagRun.Enumerator.Run`, with `PDagSpace.Covers`). It is all that the
  test accepts if and only if at most one symbol is for inputs or, above two inputs, every
  idempotent symbol is commutative (`PDagLoss.RunExactly`); `PDagExample.ReversedLost` is an input
  that shows the loss.
- When the only assignment of a DAG is a duplicate, the jump leaves a request for the next DAG
  behind and the following DAG is passed over. `PDagRun.Enumerator.Enumerate` states what is handed
  on with this effect. Which DAGs leave a request behind, and which have nothing to lose, is stated in
  terms of options and flags (`PDagLoss.SticksExactly`, `PDagLoss.BarrenExactly`), and
  `PDagLoss.LossExactly` says exactly when nothing is lost. `PDagExample.SecondDagLost` gives a
  grammar and two DAGs that lose candidates.
- For a graph of at most two vertices the biconnectivity test answers no.
- The pair checker lists one pair even for a limit below one.
- For the last vertex the cut returns the whole graph; that is its cone if and only if it depends
  on every vertex (`PDagCone.MarksAreCone`). The value of the last vertex is kept either way.

## Model

| member | source | states |
|---|---|---|
| CubNumbering.CubInit | lib/nauty/cubhamg.c:280-311 | for every simple graph of maximum degree three the numbering gives both slots of an edge the same number, each number its two ends, and missing neighbours the number `ne` |
| CubGraph.HamCycleIsHamSet | lib/nauty/cubhamg.c:622-638 | the edges of a Hamiltonian cycle form a set with two edges at every vertex in which every closed vertex set is everything |
| CubGraph.AgreesIsCompat | lib/nauty/cubhamg.c:577-618 | a cycle obeys a classification if and only if its edge set does |
| HamState.LocalDegree | lib/nauty/cubhamg.c:332-357 | what propagation may conclude at a vertex: at most two used and one rejected edge; with one rejected the others are forced, with two used the third is excluded |
| HamState.InMode | lib/nauty/cubhamg.c:388-426 | choosing an edge keeps the used edges a set of disjoint paths whose ends know each other, or closes the ring on the last edge, or shows an overfull vertex |
| HamState.OutMode | lib/nauty/cubhamg.c:369-385 | rejecting an edge keeps the path structure |
| HamState.LinkedChord | lib/nauty/cubhamg.c:428-441 | every Hamiltonian edge set that obeys the classes contains the edge between the two ends of a path when the path has all vertices, and avoids it otherwise |
| HamState.NoChord | lib/nauty/cubhamg.c:423-442 | once the new path has no unclassified edge between its ends no path has, so paths stay open |
| HamTrail.RewindsUnique | lib/nauty/cubhamg.c:482-534 | a trail leads back to one state only |
| HamTrail.TrailBound | lib/nauty/cubhamg.c:369-443 | the trail holds at most five records for a used edge and one for a rejected one; every method that classifies an edge keeps this bound (`Rationed`), also while branches are undone |
| HamTrail.Overloaded | lib/nauty/cubhamg.c:345-361 | an overloaded vertex rules out every Hamiltonian edge set |
| HamTrail.BranchesCover | lib/nauty/cubhamg.c:471-541 | if none of the unclassified edges at a vertex can be rejected there is no Hamiltonian edge set left, so the branches are exhaustive |
| HamStart.Handshake | lib/nauty/cubhamg.c:555-575 | 3 nv > 2 ne if and only if some vertex has a missing neighbour, so the padding edge is classified exactly when it is needed |
| HamSearch.Search.Push | lib/nauty/cubhamg.c:163 | a vertex is stacked once |
| HamSearch.Search.ClassOut | lib/nauty/cubhamg.c:369-385 | the rejected edge and both degrees are recorded, real counts stay right, and the trail leads back |
| HamSearch.Search.ClassIn | lib/nauty/cubhamg.c:388-443 | the chosen edge, and the edge between the new path ends if unclassified, are classified; counts, paths and far ends stay right, no Hamiltonian edge set with the chosen edge is lost, and the trail leads back |
| HamSearch.Search.Examine | lib/nauty/cubhamg.c:328-361 | what is done at one vertex loses no Hamiltonian edge set, and NO is answered only when there is none |
| HamSearch.Search.Propagate | lib/nauty/cubhamg.c:314-366 | NO only when no Hamiltonian edge set obeys the classes; YES only when the used edges are one ring through all vertices; otherwise all vertices are at rest and the used edges are disjoint paths |
| HamSearch.AtRest | lib/nauty/cubhamg.c:364-365 | with no vertex pending none is overfull, and the number of used edges tells a ring from disjoint paths |
| HamSearch.BranchVertex | lib/nauty/cubhamg.c:463-474 | the vertex chosen for branching rejects no edge and has an unclassified one, so the answer "can't happen" does not occur |
| HamSearch.Search.UndoTo | lib/nauty/cubhamg.c:512-534 | popping the trail restores class, degrees and far ends to what they were at that length |
| HamSearch.Search.TryBranch | lib/nauty/cubhamg.c:471-535 | after a branch that finds nothing or is aborted, class, degrees, far ends and trail are what they were before; NO means that the branch edge is used by every Hamiltonian edge set that obeys the classes; the nodes below are counted |
| HamSearch.Search.HamNode | lib/nauty/cubhamg.c:446-542 | the recursion ends, answers NO only when nothing is left and YES only with a ring; the nodes entered form an explored tree (each branch at the last vertex with one used edge, else at vertex 0, rejects its unclassified edges in turn until one does not fail), the counter grows by exactly their number, and the search is cut off exactly at the first node beyond the limit |
| HamTree.NodeBound | lib/nauty/cubhamg.c:446-542 | a search enters at most as many nodes as a full ternary tree whose depth is the number of unclassified edges, and just one node when none is left |
| HamSearch.Answer | lib/nauty/cubhamg.c:622-638 | the ring found is a Hamiltonian cycle that obeys the initial classes, and the final classes mark exactly its edges |
| HamSearch.Search.ReadCycle | lib/nauty/cubhamg.c:622-634 | walking along used edges lists the whole ring, starting at vertex 0 |
| HamSearch.Search.CubHam | lib/nauty/cubhamg.c:545-641 | YES gives a Hamiltonian cycle that uses every edge classified YES and none classified NO, listed from vertex 0, with `outclass` marking exactly its edges; NO means that there is none; the node counter grows by the nodes entered (none when the start already fails), HABORT comes exactly when it is the first number beyond the limit, and without a limit never |
| HamPairs.BadPairsMembers | lib/nauty/cubhamg.c:857-919 | the plain double loop: the list has exactly the pairs i, j of different edges with no Hamiltonian cycle avoiding i and using j |
| HamPairs.BadPairsOrdered | lib/nauty/cubhamg.c:889-917 | that list is in order of i, then j, so it has no repetition |
| HamPairs.CrossOff | lib/nauty/cubhamg.c:907-913 | a found cycle crosses off exactly the pairs of this and later rows that it separates |
| HamPairs.HasInOut | lib/nauty/cubhamg.c:857-919 | with pairs crossed off by earlier cycles the result is still the list of the double loop, cut at the limit: in order, at most max(limit, 1) pairs, all bad, and a bad pair is missing only when the limit is reached and it comes after all listed ones; the reported ends are those of the two edges |
| Biconnected.EnterVertex | lib/nauty/cubhamg.c:1355-1369 | entering a vertex keeps the search tree nested, its numbers increasing and its low points real and complete |
| Biconnected.CutFound | lib/nauty/cubhamg.c:1373-1377 | a low point that does not pass the parent shows that the parent cuts the graph |
| Biconnected.RootCuts | lib/nauty/cubhamg.c:1374 | a vertex unseen when the first child of the root is done shows that the root cuts the graph |
| Biconnected.NoCut | lib/nauty/cubhamg.c:1374-1378 | when the search has seen everything without finding a cut, the graph is connected and stays so after removing any vertex |
| Biconnected.BiconnectedCub | lib/nauty/cubhamg.c:1328-1381 | for more than two vertices the result is TRUE just when the graph is connected and stays connected after removing any one vertex |
| WordSyntax.ConcreteIffTerm | include/_old_/enumerator_old.hpp:79-92 | the left-to-right count accepts exactly the words of well-typed terms |
| WordSyntax.UniqueParse | include/_old_/enumerator_old.hpp:79-92 | a term is determined by its word, whatever follows it |
| WordSyntax.MachineAgrees | include/_old_/enumerator_old.hpp:171-199 | the right-to-left machine ends with one value on exactly the accepted words, and the value is that of the term, left child first |
| WordSyntax.SubtreeIsTerm | include/_old_/enumerator_old.hpp:216-236 | at every index of an accepted word one term starts, and the subtree taken there is its word |
| WordOrder.AllWordsMembers | include/_old_/enumerator_old.hpp:45-61 | the words to visit are all words with a length in the range |
| WordOrder.AllWordsOrdered | include/_old_/enumerator_old.hpp:201-214 | they are listed by length, then by value, without repetition |
| WordOrder.AllWordsCount | include/_old_/enumerator_old.hpp:45-61 | their number is the sum of the powers of the number of symbols |
| WordOrder.ValueIsLex | include/_old_/enumerator_old.hpp:201-214 | a word has the smaller value if and only if it has the smaller digit at the first difference |
| WordPrune.SimplerDecreases | include/_old_/enumerator_old.hpp:94-166 | shorter, or smaller in the order of operator positions and then symbols, is a well-founded step |
| WordPrune.Replace | include/_old_/enumerator_old.hpp:94-166 | replacing a subterm by one of the same value keeps acceptance and value of the whole word |
| WordPrune.ChainMeaning | include/_old_/enumerator_old.hpp:118-134 | a nest of one associative operator has the value of the operator folded over its leaves |
| WordPrune.Reduce | include/_old_/enumerator_old.hpp:94-166 | every word the filter drops has a simpler accepted word with the same value |
| WordPrune.NormalForm | include/_old_/enumerator_old.hpp:94-166 | every accepted word has a kept word, no longer and with the same value |
| WordTidy.KeptIffTidy | include/_old_/enumerator_old.hpp:94-166 | the word of a term is kept if and only if in every subterm a function not to be doubled is not applied to itself, a nest of a commutative operator is nested to the left over ascending leaves, and an idempotent operator has two different operands and, in a nest, no leaf twice |
| WordTidy.KeptWords | include/_old_/enumerator_old.hpp:79-166 | the words that pass both tests are exactly those of such terms |
| WordEnum.Enumerator.FormulaIsConcrete | include/_old_/enumerator_old.hpp:79-92 | the loop accepts just what the count accepts |
| WordEnum.Enumerator.GetSubtree | include/_old_/enumerator_old.hpp:216-236 | the loop cuts out the subterm at the index |
| WordEnum.Enumerator.FormulaIsDuplicate | include/_old_/enumerator_old.hpp:94-166 | the loop answers whether some position has a double application, a wrong order or a repetition; for a term these are exactly the violations of `WordTidy.Tidy` |
| WordEnum.Enumerator.ToEnumerationType | include/_old_/enumerator_old.hpp:171-199 | the loop over the word builds what the machine computes, or nothing, or meets a symbol with more than two children; with at most two children for every symbol it builds the value of the term on accepted words and nothing on all others |
| WordEnum.Enumerator.IncreaseStack | include/_old_/enumerator_old.hpp:201-214 | the word becomes its successor in length and value |
| WordEnum.Enumerator.Enumerate | include/_old_/enumerator_old.hpp:45-61 | every word from the first on up to the bound is visited once and in order, those that pass both tests are handed on once and in order and no others, and the word left behind is all zeros |
| WordEnum.KeptAfter | include/_old_/enumerator_old.hpp:45-77 | the words handed on from a start word are strictly ordered by length and value, and are exactly the words from it on, up to the bound, that pass both tests |
| WordEnum.FreshRange | include/_old_/enumerator_old.hpp:45-61 | on a fresh object the words handed on are strictly ordered by length and value, and are exactly the words with a length in the range that pass both tests |
| WordEnum.FreshEnumeration | include/_old_/enumerator_old.hpp:63-77 | the same for the form without lower bound |
| WordEnum.PruningLosesNothing | include/_old_/enumerator_old.hpp:63-166 | for lawful flags every accepted word up to the bound has a word that is handed on, no longer and with the same value |
| HexString.CreateHexString | include/enumeration_tool/utils.hpp:87-123 | for n > 1 and i < n there are 2^(n-2) digits, and bit m of the number they denote is bit i of m for every m below 2^n |
| HexString.BitOfHex | include/enumeration_tool/utils.hpp:91 | a bit of a hexadecimal number is a bit of the digit four places a step from the right |
| PDagInsert.InsertInputs | include/_old_/partial_dag_enumerator_parallel.hpp:591-618 | the in-place loop ends with the finished DAG and the number of inserted vertices is the number of free fan-ins, for every ordered DAG and fan-in |
| PDagInsert.InsertedRows | include/_old_/partial_dag_enumerator_parallel.hpp:591-618 | the finished DAG has all inputs in front, every connection of a gate moved up by their number, no free fan-in left in a gate, and the order kept |
| PDagInsert.InsertedOneToOne | include/_old_/partial_dag_enumerator_parallel.hpp:597-612 | free fan-ins and input vertices correspond one to one |
| PDagInsert.Neighbours | include/_old_/partial_dag_enumerator_parallel.hpp:597-612 | two neighbouring free fan-ins get neighbouring inputs, in descending order |
| PDagLayout.SwapLeafPairs | include/_old_/partial_dag_enumerator_parallel.hpp:620-630 | for any fan-in the loop from the last vertex down exchanges the first two children of exactly the vertices in which some child is followed by a lower one and the first two children are inputs |
| PDagLayout.InitialLayout | include/_old_/partial_dag_enumerator_parallel.hpp:591-630 | after insertion and exchange the two input children of a gate are neighbours, the lower one first |
| PDagLayout.InputsApart | include/_old_/partial_dag_enumerator_parallel.hpp:591-630 | gates with two input children share none of them |
| MixedRadix.BumpedValue | include/_old_/partial_dag_enumerator_parallel.hpp:688-713 | with W the weight of position p a jump takes value v to (v / W + 1) * W, or runs over the end when that is the number of assignments |
| MixedRadix.Between | include/_old_/partial_dag_enumerator_parallel.hpp:688-713 | what a jump at p passes over agrees from p on, and the digit below p does not go down |
| MixedRadix.IncBumps | include/_old_/partial_dag_enumerator_parallel.hpp:715-729 | advancing with carry adds one to the value, or returns to zero from the last one |
| MixedRadix.FromMembers | include/_old_/partial_dag_enumerator_parallel.hpp:169-229 | the walk from a value on meets exactly the assignments with at least that value |
| MixedRadix.KeepRising | include/_old_/partial_dag_enumerator_parallel.hpp:169-229 | what is kept of the walk is listed by strictly increasing value |
| PDagSpace.IndexesAscend | include/enumeration_tool/grammar.hpp:73-83 | the symbols listed for a number of children ascend and have that number |
| PDagSpace.IndexesComplete | include/enumeration_tool/grammar.hpp:73-83 | every symbol with that number of children is listed |
| PDagSpace.RootsMember | include/_old_/partial_dag_enumerator_parallel.hpp:645-657 | of the symbols of the last vertex exactly those allowed at the root remain |
| PDagSpace.PossibleExactly | include/_old_/partial_dag_enumerator_parallel.hpp:636-657 | a vertex may take exactly the symbols with as many children as it has, and the last vertex only those of them allowed at the root |
| PDagSpace.GateJump | include/_old_/partial_dag_enumerator_parallel.hpp:418-480 | for every grammar a jump at the upper child of a duplicate gate passes over assignments in which the inputs of that gate are out of order for a flagged symbol, or equal for an idempotent one (the gate covers them) |
| PDagSpace.GateJumpExactly | include/_old_/partial_dag_enumerator_parallel.hpp:462-480 | that gate stays a duplicate over the whole jump if and only if its symbol is commutative or its lower input is at its last option |
| PDagSpace.ConeJump | include/_old_/partial_dag_enumerator_parallel.hpp:346-374 | a jump at the lowest vertex of a matched cone passes over assignments that agree on the cone, so over recorded ones only |
| PDagSpace.JumpKeeps | include/_old_/partial_dag_enumerator_parallel.hpp:201-229 | after such a jump the uncovered assignments still to come are the same, and the value has grown or the walk is over |
| PDagSpace.TestsExactly | include/_old_/partial_dag_enumerator_parallel.hpp:407-480 | for every grammar, with nothing recorded, the test accepts exactly if below each gate with two input children the input symbols differ for an idempotent symbol and do not descend for a commutative one; handed on is what ascends strictly for an idempotent symbol and does not descend for a commutative one |
| PDagSpace.StrictlyIncreasing | include/_old_/partial_dag_enumerator_parallel.hpp:407-480 | with every gate symbol commutative and idempotent and nothing recorded, an assignment is handed on just when every gate with two input children has strictly increasing symbols below it |
| PDagVisit.MoveOrderly | include/_old_/partial_dag_enumerator_parallel.hpp:169-229 | every step and every jump of the run leads from an orderly assignment to an orderly one: what comes before it below a covering gate is covered there, and if the test accepts the gate, everything below its inputs is |
| PDagVisit.OrderlyDecides | include/_old_/partial_dag_enumerator_parallel.hpp:407-508 | at an orderly assignment the test rejects exactly what is covered |
| PDagRun.Enumerator.Initialize | include/_old_/partial_dag_enumerator_parallel.hpp:591-684 | for any fan-in the DAG, the options and the cones are those the DAG determines, the assignment is the first one, and a vertex without options asks for the next DAG |
| PDagRun.Enumerator.CollectPositions | include/_old_/partial_dag_enumerator_parallel.hpp:669-681 | the lists are the vertices, ascending, of the cones below the root with the recorded structure, one list for each such vertex and from the last vertex down |
| PDagRecord.RecordedCone | include/_old_/partial_dag_enumerator_parallel.hpp:669-681 | for every DAG before the insertion of inputs: a vertex of the laid-out DAG has the recorded structure below it if and only if it is a gate, not the last one, that joins two different gates without children, the earlier one first |
| PDagRecord.RecordedTree | include/_old_/partial_dag_enumerator_parallel.hpp:805-808 | the recorded structure is the layout of the tree of three gates |
| PDagRun.Enumerator.IncreaseStackAtPosition | include/_old_/partial_dag_enumerator_parallel.hpp:688-713 | the assignment below the position is reset and one is added from the position on, or the walk wraps and the next DAG is asked for |
| PDagRun.Enumerator.IncreaseStackTest | include/_old_/partial_dag_enumerator_parallel.hpp:715-729 | one is added to the assignment, or it wraps and the answer is false |
| PDagRun.Enumerator.FormulaIsDuplicate | include/_old_/partial_dag_enumerator_parallel.hpp:407-508 | the answer is whether the assignment is a duplicate; if not nothing changes, and if so the odometer jumps at the upper child of the last duplicate gate, or, when no gate is one, at the lowest vertex of the cone of the last vertex whose cone is on record, and passes over covered assignments only |
| PDagRun.Enumerator.DuplicateAccumulationCheck | include/_old_/partial_dag_enumerator_parallel.hpp:346-374 | false only when no listed cone carries a recorded duplicate; otherwise the jump starts at the lowest vertex of the first listed cone that does |
| PDagRecord.OnRecordExactly | include/_old_/partial_dag_enumerator_parallel.hpp:346-374 | an assignment is rejected for a record if and only if some gate that joins two gates without children has, on the inputs of the later one, those of the earlier one and the three gates, the recorded symbols |
| PDagRecord.RecordMeaning | include/_old_/partial_dag_enumerator_parallel.hpp:346-374 | then that gate computes what the recorded duplicate computes |
| PDagRun.Enumerator.Run | include/_old_/partial_dag_enumerator_parallel.hpp:169-229 | for every grammar whose leaf symbols carry no flag the loop ends, and the candidates queued are exactly the assignments that no gate and no record covers, once each and in order; the request for the next DAG is left behind just when the only assignment is a duplicate |
| PDagOffer.OfferedExactly | include/_old_/partial_dag_enumerator_parallel.hpp:169-229 | what a DAG offers is rising in value and contains an assignment if and only if it is not covered |
| PDagLoss.RunExactly | include/_old_/partial_dag_enumerator_parallel.hpp:407-480 | without records a run hands on all that the duplicate test accepts if and only if at most one symbol is for inputs or, above two inputs, every idempotent symbol is commutative |
| PDagLoss.NothingPassed | include/_old_/partial_dag_enumerator_parallel.hpp:407-480 | under that condition the same holds with records |
| PDagMeaning.ValuesKept | include/_old_/partial_dag_enumerator_parallel.hpp:407-480 | where idempotent symbols are commutative and commutative symbols exchange operands without changing the value, every assignment has one with the same value at the root that is handed on or repeats an input below an idempotent gate |
| PDagMeaning.NoValueLost | include/_old_/partial_dag_enumerator_parallel.hpp:169-229 | without idempotent symbols a run hands on a candidate for every value that some assignment of the DAG has |
| PDagExample.ReversedLost | include/_old_/partial_dag_enumerator_parallel.hpp:462-480 | two inputs below an idempotent root that does not commute: the test accepts them in reverse order, the run passes them over |
| PDagRun.Enumerator.Enumerate | include/_old_/partial_dag_enumerator_parallel.hpp:157-229 | over all DAGs the queue receives what each offers, except after a request left behind |
| PDagOffer.NothingLost | include/_old_/partial_dag_enumerator_parallel.hpp:157-229 | when no DAG but the last has a duplicate as its only assignment, that is everything |
| PDagLoss.SticksExactly | include/_old_/partial_dag_enumerator_parallel.hpp:193-229 | a DAG leaves a request behind if and only if every vertex has one option, and a gate over two inputs has an idempotent one or the assignment is on record |
| PDagLoss.BarrenExactly | include/_old_/partial_dag_enumerator_parallel.hpp:169-229 | without records a DAG offers nothing if and only if a vertex has no option, or at most one symbol is for inputs and a gate over two inputs has only idempotent options |
| PDagLoss.AfterStuck | include/_old_/partial_dag_enumerator_parallel.hpp:193-229 | after a DAG that left a request behind there is one symbol for inputs, so the next one offers nothing if and only if a vertex has no option or a gate over two inputs has only idempotent ones |
| PDagLoss.LossExactly | include/_old_/partial_dag_enumerator_parallel.hpp:157-229 | nothing is lost over a list of DAGs if and only if each DAG passed over is barren in that sense, where one is passed over when the DAG before it was not and leaves a request behind in that sense |
| PDagOffer.LostAfterSticking | include/_old_/partial_dag_enumerator_parallel.hpp:193-229 | after a DAG whose only assignment is a duplicate, nothing of the next DAG is handed on |
| PDagExample.SecondDagLost | include/_old_/partial_dag_enumerator_parallel.hpp:193-229 | a grammar and two DAGs for which a candidate is lost in this way |
| PDagCone.Mark | include/_old_/partial_dag_enumerator_parallel.hpp:575-584 | exactly the vertices a vertex depends on are marked in addition |
| PDagCone.EraseUnmarked | include/_old_/partial_dag_enumerator_parallel.hpp:553-570 | erasing rows one by one with renumbering leaves the part of the graph at the marked vertices |
| PDagCone.GetSubgraph | include/_old_/partial_dag_enumerator_parallel.hpp:536-573 | the result is the part of the graph at the marked vertices, as many rows as marks, the start vertex last |
| PDagCone.MarksAreCone | include/_old_/partial_dag_enumerator_parallel.hpp:539-551 | the marks are the cone of the start vertex if and only if it is not the last vertex or depends on every vertex |
| PDagCone.CutUnique | include/_old_/partial_dag_enumerator_parallel.hpp:536-573 | the renumbering that keeps the order is the only one |
| PDagCone.EvalCut | include/_old_/partial_dag_enumerator_parallel.hpp:536-573 | every vertex of the part has under the projected assignment the value it has in the whole graph |
| PDagCone.SubgraphMeaning | include/_old_/partial_dag_enumerator_parallel.hpp:536-573 | the last vertex of the result computes what the start vertex computes |
| PDagCone.EvalTwo | include/_old_/partial_dag_enumerator_parallel.hpp:255-315 | in evaluation an input stands for its symbol alone, and a gate with two children takes the value of the left one first |
| PDagBuild.Builder.CreateNode | include/_old_/partial_dag_enumerator_parallel.hpp:255-315 | the memoised recursion returns the value of plain recursion and keeps the whole cone; it fails only if the cone has a vertex with more than three children |
| PDagBuild.Builder.ToEnumerationType | include/_old_/partial_dag_enumerator_parallel.hpp:317-344 | it fails just when a reachable vertex has more than three children; otherwise it returns the value of the last vertex, calls the leaf constructors in one fixed order for every candidate, and then calls the constructor of each reachable gate exactly once, children before parents, with the values of its children |
| PDagBuild.LeafCallsExactly | include/_old_/partial_dag_enumerator_parallel.hpp:320-330 | the calls for the leaves are one for each symbol without children, from the last symbol to the first |
| PDagChain.GetChainOfSameOperator | include/_old_/direct_enumerator_partial_dag.hpp:501-530 | the two overloads collect the operands of the nest of equal symbols, left to right |
| PDagChain.ChainMembers | include/_old_/direct_enumerator_partial_dag.hpp:501-530 | the operands come before the vertex and carry other symbols |
| PDagChain.ChainMeaning | include/_old_/direct_enumerator_partial_dag.hpp:501-530 | for a binary associative operator the value of the vertex is the operator folded left to right over the values of the operands, shared vertices included |
| Accumulate.Accumulator.DuplicateAccumulation | include/_old_/partial_dag_enumerator_parallel.hpp:376-405 | a new function gets its size noted; a known one is queued if and only if it has strictly more gates than noted and the DAG is the recorded structure, and nothing else changes |
| Accumulate.StepKeepsInv | include/_old_/partial_dag_enumerator_parallel.hpp:129-229 | every step of the enumerator, the worker and the accumulator keeps the invariant on sizes and records |
| Accumulate.AssertionHolds | include/_old_/partial_dag_enumerator_parallel.hpp:389 | in every run with one worker and DAGs in nondecreasing gate count the noted size of a known function is at most the gate count of the candidate taken |
| Accumulate.NotedIsMinimal | include/_old_/partial_dag_enumerator_parallel.hpp:376-405 | a noted size is at most the gate count of every queued candidate and of the DAG being enumerated |
| Accumulate.NotedIsLeast | include/_old_/partial_dag_enumerator_parallel.hpp:376-405 | in every run a size noted at one time is at most the gate count of every candidate queued at that or any later time |
| Accumulate.RecordsJustified | include/_old_/partial_dag_enumerator_parallel.hpp:391-402 | in every run each recorded duplicate comes after a candidate with the same function and strictly fewer gates |
| Accumulate.RecordsComplete | include/_old_/partial_dag_enumerator_parallel.hpp:391-402 | in every run each candidate on the recorded structure that comes after one with the same function and fewer gates is recorded or on the way |
| Accumulate.RecordedOnce | include/_old_/partial_dag_enumerator_parallel.hpp:391-402 | in every run there are as many records as such candidates |
| Accumulate.OfferedSizesRise | include/_old_/partial_dag_enumerator_parallel.hpp:157-229 | DAGs in nondecreasing number of vertices give candidates in nondecreasing gate count |

## Left out

- CubHam: a graph without vertices is excluded; the code answers YES for it. The optional arguments for classes and results are always present.
- HamNode: the recursion level and the statistics kept under compile-time switches are not modelled; nor are the returns that no called function produces (a rejected edge never answers YES or NO by itself).
- The trail of the solver is a sequence; its length is bounded by what is classified, and the fixed size of the array in the code is not modelled. The node counter is not reset between calls, as in the code.
- CubInit: the edge number tables are sequences reassigned by the loop, not arrays.
- The checkers for one edge, for two used edges and for removed edges, the random restarts, edge insertion and file handling of `cubhamg.c`: they ask the same solver in other orders.
- `oldhasout`, the vertex-removal variants of the biconnectivity test and the test for three-connectivity.
- ToEnumerationType: word symbols with more than two children make the code stop; the model answers `Unsupported`. The filter and the parsing theorems are stated for symbols of arity at most two.
- Sorting and searching by the C++ library (`std::sort`, `std::is_sorted`, `std::remove_if`, `std::count_if`, `adjacent_find`) appear as functions or predicates with their documented result.
- Run: fan-in two only, as the jumps of the duplicate test rest on two children; initialisation is proved for every fan-in. The root set is a fixed part of the grammar, without the cache the code keeps between calls. The sequence of a depth-first walk that is computed along the way is not used.
- FormulaIsDuplicate: the test for equal gates with equal inputs is not modelled; its jump resets inputs of other gates and is not sound in general. Symbols without children carry no flags, since the code would read before the first vertex for them.
- Enumerate: tasks that a callback could set from outside, stopping early and reporting results are not modelled. The recorded duplicates are fixed while one list of DAGs is enumerated; the code lets another thread add to them.
- Step: one worker, queues in order of arrival, and steps that happen one at a time; timeouts and several workers are not modelled. The callback is a function of the candidate.
- DuplicateAccumulation: the function of a candidate is a number; parsing it from hexadecimal text is not modelled. Rows have two entries, so an input is a row of two zeros.
- The variants of the enumerators in other files, the filters for repeated signals and for operators with more than two operands, the grammar check on children, and drawing.
- Numbers are unbounded; shifts and counters of the code are taken not to overflow.
