# Models of the P4 compiler's core, of its JSON and of the debugger's messages

This project models the parts of the repository that carry state from step to step and proves what
they promise on all inputs. Most of it is the P4 compiler `p4c`; two parts are the BMv2 JSON generator
and the debugger `p4dbg.py`. Every component that updates itself in place is a class here whose methods
are proved against a function of the old state, and the results are theorems about those functions.

## What is proved

**The IR visitors** (`p4c/ir/visitor.cpp`). The IR is a finite graph of nodes with shared children.

- `Modifier` and `Transform` rewrite it with a table of results (`Visitors`). Both callbacks see the
  original node and its clone, in which preorder finds the results of those children that happened to be
  visited before. A vector that is returned for an element of another one is spliced there, when the
  element is visited and when its result is forwarded into a clone; what is forwarded is visited again.
  Where it does not matter what was visited before, the graph returned unfolds, for every acyclic graph
  and all deterministic callbacks, to the plain recursive rewrite of the tree the input unfolds to, unless
  the stack of visited nodes overflows (`RewriteProof`). It does not if it has room for the longest way
  down, through the nodes and then through the result of one of them (`Need`), however many nodes there
  are. Without any condition, the input graph is left as it was and a shared node has one result
  (`RewriteKeeps`).
- The condition speaks of the callbacks for a node and, through the results of its children, of those for
  the nodes below; the code does not check it. It has three parts. Preorder's answer and what a pruned
  node keeps must not depend on which children are rewritten already (`StableAt`): it is enough that
  preorder keeps all children and looks at none (`KeepingIsStable`). New elements of a vector that is
  returned for an element must be left alone by the callbacks (`Lasting`): the first vector that gets them
  passes over them, and a second one visits them. And an element that is a vector must be left alone or
  change, for whether it is spliced hangs on a comparison of pointers. Runs in which the first two fail
  are in `HistoryExample` and `SpliceExample`.
- The condition is exact for visitors that leave some class of records and some class of vectors alone
  and whose actions show (`Overt`): every run on every graph, unless it overflows, is the plain rewrite if
  and only if `StableAt` and `Lasting` hold for all trees (`RewriteHistory.HistoryFreeIff`). Actions on
  trees in which `StableAt` or `Lasting` fails further down need not show. The visitors of both examples
  are such (`IsOvert`), so that the condition decides them (`NotEveryRunIsPlain`).
- `Inspector` raises "IR loop detected" exactly if a loop is reachable; otherwise every reachable node
  gets one preorder call, one postorder call after its children are over, and one revisit for each
  further arrival (`Inspect`, `Inspectors`). The calls come in the order of a plain recursion over the
  tree of arrivals, children from the first to the last (`InspectCalls`).
- With flow joining, the counting pass finds every edge from a reachable node, and a join point is put
  off on all arrivals but the last and then entered in the merge of the states of all of them
  (`FlowJoin`, `FlowJoinProof`, `FlowInspectors`). Among one node's arrivals the order does not matter.
  Preorder may prune, but the counting pass counts the pruned edges too: a join point is entered if and
  only if the walk goes on from every one of its predecessors, and otherwise waits for ever.
- Where the states come from is said by a recursion over the tree of arrivals, which knows neither tables
  nor counters (`FlowStates`): preorder, then the children in turn, or each from the state behind preorder
  and then merged, beginning with the dead state, then postorder; an arrival that is put off changes
  nothing, and a node met again is revisited. Every run has such a tree, with this log and this last state
  (`RunFlows`). Where no node has two arrivals, it is the tree that the graph unfolds to (`PlainFlow`).

**The backtracking pass manager** (`p4c/ir/pass_manager.cpp`, `PassManagers`). A run with the backup
stack is the plain run that remembers for every pass the program it last received and, on a trigger, asks
the earlier candidates from the latest on until one accepts. A pass that asks for an early exit and then
throws stops the run after the pass that is resumed. Nested managers are passes too: the plain run
(`PlainPasses`) goes down into them by itself, and a manager that is asked about a trigger accepts if and
only if one of the passes in it, at whatever depth, accepts when they are asked in order; behind that one
nobody is asked. A run ends, and applies at most `|passes|` passes per accepted trigger and `|passes|`
more. After an acceptance the stack holds two entries for one pass: it is sorted, but not strictly.

**Control-plane names and ids** (`p4c/control-plane/p4RuntimeSerializer.cpp`).

- Ids (`SymbolIds`, `SymbolTables`): probing visits the ids of a resource type in cyclic order in spite
  of the 32-bit wrap-around and fails exactly if all of them are taken; ids never collide; explicit ids
  are kept; and with compatible requests the tables do not depend on the order of the `add` calls. With
  conflicting ids they do.
- Which id it is can be told from the finished tables (`IdOrder`): the first one, in cyclic order from the
  hash of the symbol's own name, that is neither explicit nor the id of a kind computed earlier nor that
  of a smaller name of its kind. An id is explicit for the first symbol whose first call asks for it; each
  later one is reported, and so is each kind whose ids run out, once.
- Aliases (`Aliases`, `SuffixSets`): the trie counts, for every suffix, the symbols that end in it; an
  alias is the shortest suffix no other symbol has, or the whole symbol. As paths, aliases of different
  symbols differ always; as texts, they differ unless some symbol is hidden behind empty components, and
  the condition is exact (`a` and `.a` clash).
- Blocks (`Worklist`): each reachable block once, in breadth-first order, on cyclic graphs too.

**Printing expressions** (`p4c/ir/dbprint-expression.cpp`, `Expressions`, `ExprReader`, `ExprTwins`,
`ExprParens`). A reader with levels of its own, those of the language
(`p4c/frontends/parsers/p4/p4parser.ypp:203-218`; ranges and masks are looser still) and not the
printer's precedences, gives back an expression from its text if and only if the expression has no
negative constant, no Boolean literal, no renamed name and no absolute path. No reader could do better,
for every expression that has one of these prints like some other expression
(`ExprTwins.AnotherPrintsAlike`): `-5` is a constant and a negation, `true` is printed as `1`, a name
that was renamed from `b` to `a` is printed like the quotient `a/b`, and the dot of an absolute path is
not printed. An operand stands in parentheses exactly if it is looser, by the reader's levels, than its
place asks for, and none of these parentheses could be left out: without them the text is that of another
expression, and is read as that one. Every printer leaves the stream's precedence as it found it.

**Graphs as JSON** (`p4c/ir/json_generator.h`, `json_parser.h`, `json_loader.h`). `JsonText` reads back
every value from its text with any whitespace between the tokens and stops just behind it. Whatever the
text, no string read from it holds a double quote, so a value comes back from the generator's text
exactly if no string in it does (and no object repeats a key). `GraphJson` writes a node in full once and
by its id from then on: in the order of the text, its first mention has its class and all its fields that
are not null, whether the graph is cyclic or not (`WrittenOnce`). Loading what was written gives an
isomorphic graph, one object for one, **if and only if** the graph has no cycle, no reachable string is
null and everything that a field of vector type points to is pointed to just once. The last two are
properties of the code. A null string is written as `null`, which the loader cannot take for a string
(`NullStringIsLost`). For a pointer to a vector the loader's overload calls the vector's constructor and
never looks at the ids it keeps, so a vector that two nodes share (as a node and its clone do) comes back
as two, the second of them empty (`SharedVectorIsLost`). `TextRoundTripIff` puts generator, reader and
loader together: the graph must then hold no reachable string with a double quote either
(`QuotedStringIsLost`).

**Containers** (`p4c/ir/ir-inline.h`, `indexed_vector.h`, `Vectors`, `IndexedVectors`). A vector that
splices itself while it is visited ends as the concatenation of what stands in the place of its elements,
whatever stands around each of them. From a right index, an indexed vector reports a duplicate exactly if
at some moment of the visit two elements declare one name, and if none is reported the index is right
again. The moments in between count: exchanging two names is reported although the lists before and after
are free of duplicates (`ExchangeIsReported`).

**Bit vectors** (`p4c/lib/bitvec.cpp`, `Bits`, `Bitvec`). `>>=` is division by a power of two and leaves
no zero word on top; `<<=` is multiplication modulo the size, and inexact exactly if the greatest bit
would land on the very first bit behind the words (the size computed is then one word short); slices up
to a word, scans and runs are those of the set of bits.

**Match keys** (`gen_json.py`, `MatchKeys`). Packing fields into bytes loses nothing but the bits beyond
the widths and goes through bitwise and, so that masked matching on packed keys is masked matching on
the bits. The text has two digits for each byte counted exactly if no width is zero.

**Debugger messages** (`p4dbg.py`, `MsgCodec`). Reading what was written restores every field and
returns the full length if and only if every row of bytes is counted in bytes, or empty: behind a row
the offset moves on by the number of units. For the messages there are, where only the last row is
counted in larger units, all fields are restored and only the length is short. Any sixteen bytes are read
as a `BasicMsg` with the type in the first four, the switch in the next four and the request in the last
eight, the lowest byte first (`HeaderBytes`), so that the right class is chosen. The other way round, the
bytes a message was read from are those that are written for it (`MsgBack`).

## Layout

`Common`, `IRGraph`, `JsonValues`, `WrittenJson` and `Bits` hold what several components share. Where a
component has a specification and a running form, the first is in files of functions and lemmas
(`Rewrite` and the files named after it) and the second in a file with a class (`Visitors`). For the
rewriting visitors, `RewriteState` has the invariant, `RewriteIdle` second visits that change nothing and
`RewriteAgain` and `RewriteReturned` those that do, `RewriteSteps` the steps of one visit, `RewriteRoom`
the depth of the stack, `RewriteScene` the graphs on which history shows, and `RewriteWeights` what the
examples need to show that they are covered.

## Model

| member | source | states |
|---|---|---|
| Visitors.ChangeTracker.Start | p4c/ir/visitor.cpp:41-54 | a node already in progress is a loop; otherwise it is in progress, or stays done |
| Visitors.ChangeTracker.Finish | p4c/ir/visitor.cpp:69-89 | records the result, marks a new result as done too, and says whether the node changed |
| Visitors.Rewriter.Replace | p4c/ir/ir-inline.h:64-93 | a field gets what was returned for it; an element is kept, erased, overwritten, or spliced if a vector was returned, and the loop goes on behind that |
| Visitors.Rewriter.ForwardChildren | p4c/ir/visitor.cpp:211-219 | in the place of every child of the clone that is done stands its result, spliced where it is a vector for an element; the others stay |
| Visitors.Rewriter.VisitChildren | p4c/ir/ir-inline.h:64-93 | the children that a clone has at last, and the state, are those of the specified walk over its children |
| Visitors.Rewriter.ModifierApply | p4c/ir/visitor.cpp:222-246 | the new graph, table and pointer are those of the specified visit, in which preorder gets the clone with forwarded children |
| Visitors.Rewriter.TransformApply | p4c/ir/visitor.cpp:273-321 | the same for removals, replacements, pruning and the extra clone |
| Visitors.Rewriter.Apply | p4c/ir/visitor.cpp:122-138 | the input graph is kept; and if it does not matter what is visited before what, then with any room for the stack it overflows, or the graph returned unfolds to the plain rewrite and an untouched root is returned itself; it does not overflow if the longest way down fits |
| RewriteProof.VisitOk | p4c/ir/visitor.cpp:222-321 | from any good table and with any room for the stack, under the same condition, a visit overflows, or returns a pointer that unfolds to the plain rewrite and leaves a good table |
| RewriteProof.MemoisedIsPlain | p4c/ir/visitor.cpp:222-321 | under the same condition a memoised run, with any room for the stack, overflows or is the plain rewrite of the unfolded input |
| RewriteProof.SharingIsInvisible | p4c/ir/visitor.cpp:222-321 | under the same condition two graphs that unfold to one tree are rewritten to one tree, if neither run overflows |
| RewriteRoom.MoreRoom | p4c/ir/visitor.cpp:205 | a visit that raised nothing goes just as it does with more room for the stack |
| RewriteIdle.IdleOk | p4c/ir/visitor.cpp:273-321 | visiting again what is its own result, or new nodes that the callbacks leave alone, returns it and meets no node of the input |
| RewriteAgain.ChangingOk | p4c/ir/visitor.cpp:273-321 | a new element that the callbacks do not leave alone is rewritten, when it is visited again, as any node with these children is, and the other such elements are not met |
| RewriteKeeps.InputIsKept | p4c/ir/visitor.cpp:222-321 | whatever the callbacks do, a run leaves every node of the input graph as it was |
| RewriteKeeps.SharedOnce | p4c/ir/visitor.cpp:226-228 | whatever the callbacks do, a node met again yields the pointer it was given first, and nothing changes |
| RewriteHistory.HistoryFreeIff | p4c/ir/visitor.cpp:281-306 | with forwarded children, if some classes are left alone and what the callbacks do shows, every run that does not overflow is the plain rewrite iff no outcome depends on which children were forwarded and the new elements of returned vectors are left alone |
| RewriteHistory.TooLate | p4c/ir/visitor.cpp:281-306 | wherever an outcome does depend on them, and below is sound, there is a run that meets just those children forwarded, and what it returns |
| RewriteHistory.TwiceRewritten | p4c/ir/ir-inline.h:71-74 | wherever a vector is built and returned, there is a run in which another vector that holds the node visits its elements again, and what it returns; it is the plain rewrite iff the list of elements stays as it is |
| RewriteHistory.KeepingIsStable | p4c/ir/visitor.cpp:284-308 | it is enough for the first part that preorder keeps all children, prunes nothing and answers the same for any children |
| HistoryExample.PrunedNodeIsRewritten | p4c/ir/visitor.cpp:284-306 | a run in which a pruned node keeps a rewritten child |
| HistoryExample.ForwardedChildIsSeen | p4c/ir/visitor.cpp:284-288 | a run in which preorder answers for a rewritten child, with nothing pruned |
| SpliceExample.SecondVectorDiffers | p4c/ir/ir-inline.h:71-74 | for every n > 1, two vectors share a node that becomes a vector with a smaller one in it: the first ends with n - 1 and the second with n - 2, though no outcome depends on what preorder finds |
| Rewrite.UntouchedIsFixed | p4c/ir/visitor.cpp:82-89 | callbacks that change nothing a visit comes to leave the tree as it is |
| Inspectors.Inspector.ApplyVisitor | p4c/ir/visitor.cpp:248-271 | the table and the calls made are those of the specified walk |
| Inspectors.Inspector.Apply | p4c/ir/visitor.cpp:248-271 | a loop is reported iff one is reachable; otherwise each reachable node is visited once, and the calls are those of a recursion over the tree of arrivals |
| Inspect.LoopIffReachable | p4c/ir/visitor.cpp:253-254 | "IR loop detected" iff a loop is reachable from the root |
| Inspect.OnceEach | p4c/ir/visitor.cpp:250-266 | one preorder and one postorder call per reachable node, and one revisit per further arrival |
| Inspect.VisitWalks | p4c/ir/visitor.cpp:250-266 | a visit finishes distinct new nodes and its calls match the arrivals along their edges |
| InspectCalls.RunCalls | p4c/ir/visitor.cpp:250-266 | preorder before the children, these from the first to the last, postorder behind them; a revisit only when the visit of the node is over |
| FlowInspectors.SetupJoinPoints.ApplyVisitor | p4c/ir/visitor.cpp:359-366 | the counters are those of the specified counting walk |
| FlowInspectors.ControlFlowVisitor.InitJoinFlows | p4c/ir/visitor.cpp:368-381 | the join points are the nodes with several arrivals that are not filtered out, with their counts |
| FlowInspectors.ControlFlowVisitor.TestJoinFlows | p4c/ir/visitor.cpp:383-396 | counts down, merges, and skips all arrivals but the last |
| FlowInspectors.ControlFlowVisitor.VisitChildren | p4c/ir/ir-inline.h:96-136 | children in turn, or each from the state before all of them and then merged |
| FlowInspectors.ControlFlowVisitor.Apply | p4c/ir/visitor.cpp:248-271 | who is entered and in which state, with a preorder that may prune; the last state and the log are those of a recursion over the tree of arrivals that uses pre, post, revisit, merge and dead only; with nothing pruned, every predecessor of a join point is awaited |
| FlowJoin.CountsArrivals | p4c/ir/visitor.cpp:359-375 | the counting pass counts exactly the arrivals along edges from reachable nodes |
| FlowJoinProof.JoinedAre | p4c/ir/visitor.cpp:376-380 | a node is a join point iff it has several arrivals and is not filtered out |
| FlowJoinProof.WhoIsEntered | p4c/ir/visitor.cpp:383-396 | no node is entered twice; a join point is entered iff the walk passes every predecessor, on the last arrival, in the merge of all arriving states |
| FlowJoinProof.EveryPredecessorIsAwaited | p4c/ir/visitor.cpp:383-396 | if nothing is pruned, every reachable node is entered once and arrived at along every edge |
| FlowJoinProof.MergeInAnyOrder | p4c/ir/visitor.cpp:386-391 | for an associative, commutative merge the order of the arrivals does not matter |
| FlowStates.RunFlows | p4c/ir/visitor.cpp:248-271 | every arrival is in the state behind its parent's preorder or its sibling's visit, or in the one before parallel siblings; and the last state follows from pre, post, revisit, merge and dead |
| FlowStates.PlainFlow | p4c/ir/visitor.cpp:248-271 | if no node has two arrivals, last state and log are those of the plain recursion over the unfolded tree |
| FlowStates.UnfoldingOfRoot | p4c/ir/visitor.cpp:253-254 | without a loop there is such a tree |
| PassManagerLoop.PassManager.ApplyVisitor | p4c/ir/pass_manager.cpp:21-68 | program or trigger, world and events are those of the plain backtracking run, in which nested managers run their own passes in the same plain way, with the flag for an early exit kept across triggers |
| PassManagerLoop.PassManager.RunPasses | p4c/ir/pass_manager.cpp:24-67 | the loop over passes is the specified run with the backup stack |
| PassManagerLoop.PassManager.Backtrack | p4c/ir/pass_manager.cpp:45-58 | the handler unwinds the stack as specified |
| PassManagerProof.RunIsPlain | p4c/ir/pass_manager.cpp:21-68 | from any stack that is sorted and holds the programs last received, the run is the plain run |
| PassManagerProof.ManagerIsPlain | p4c/ir/pass_manager.cpp:21-68 | a whole run is the plain run, at every level of nesting |
| PassManagerProof.ApplyIsPlain | p4c/ir/pass_manager.cpp:21-68 | applying a manager as a pass is the plain run of its own passes from the first on, with an empty memory, and so on for the managers in it |
| PlainPasses.AcceptsIff | p4c/ir/pass_manager.cpp:70-75 | a manager accepts iff one of the passes in it, at any depth, does when asked in order, and behind that one nobody is asked |
| PlainPasses.CandidateIff | p4c/ir/pass_manager.cpp:77-87 | snapshots are kept for the passes that hold a backtracking one that does not say never |
| PassManagerProof.UnwindResumes | p4c/ir/pass_manager.cpp:47-58 | unwinding resumes at the latest earlier candidate that accepts, with the program it last received |
| PassManagerProof.PushOk | p4c/ir/pass_manager.cpp:27-31 | starting a candidate keeps the stack sorted and complete |
| PassManagerProof.ResumeAsks | p4c/ir/pass_manager.cpp:47-58 | every earlier pass that may accept is asked once; the trigger is rethrown iff all refuse |
| PassManagerProof.NeverRefuses | p4c/ir/pass_manager.cpp:70-86 | a pass that never backtracks, nested or not, would refuse, so leaving it out changes no answer |
| PassManagerProof.BoundedRun | p4c/ir/pass_manager.cpp:24-67 | the number of passes applied is bounded by the passes left and the acceptances left |
| SymbolIds.ProbeIsComplete | p4c/control-plane/p4RuntimeSerializer.cpp:715-727 | the first free id in cyclic order is found, or all ids of the type are taken |
| SymbolIds.EveryIdIsProbed | p4c/control-plane/p4RuntimeSerializer.cpp:715-727 | the probe sequence meets every id of the type |
| SymbolIds.OrderIsIrrelevant | p4c/control-plane/p4RuntimeSerializer.cpp:572-703 | permuted compatible requests give the same tables |
| SymbolIds.IdsAreUnique | p4c/control-plane/p4RuntimeSerializer.cpp:572-703 | all ids differ, old ones stay, new ones have their type's format, and a symbol is without one only if all are taken |
| SymbolIds.ExplicitIdsAreKept | p4c/control-plane/p4RuntimeSerializer.cpp:639-653 | without conflicts an explicit id is the final one |
| SymbolIds.ConflictsDependOnOrder | p4c/control-plane/p4RuntimeSerializer.cpp:639-653 | of two requests for one id the one that comes first decides: the tables differ, whatever other requests there are and in whatever order |
| SymbolIds.SortedIsUnique | p4c/control-plane/p4RuntimeSerializer.cpp:662-674 | the sorted list of a set of names is unique |
| IdOrder.IdsAreFirstFree | p4c/control-plane/p4RuntimeSerializer.cpp:572-703 | a symbol without an explicit id has the first one of its type, in cyclic order from the hash of its own name, that is not explicit, nor of a kind computed earlier, nor of a smaller name of its kind; or none, if all are such ids |
| IdOrder.LessIsSmaller | p4c/lib/cstring.h:116-117 | names are ordered by the first character that differs, a proper beginning first |
| IdOrder.AddedAre | p4c/control-plane/p4RuntimeSerializer.cpp:597-653 | after all calls, conflicting or not: which symbols there are, which ids are taken, who has them, and how many calls were reported |
| IdOrder.ErrorsAre | p4c/control-plane/p4RuntimeSerializer.cpp:572-703 | one error per refused call and one per kind whose ids run out |
| SymbolTables.P4RuntimeSymbolTable.Create | p4c/control-plane/p4RuntimeSerializer.cpp:572-589 | the table is the specified one, its ids are unique, and each one not asked for is the first from the hash of its name that no symbol ahead of it has |
| SymbolTables.P4RuntimeSymbolTable.Add | p4c/control-plane/p4RuntimeSerializer.cpp:597-606 | a known name is left alone; another gets its explicit id if free |
| SymbolTables.P4RuntimeSymbolTable.TryToAssignId | p4c/control-plane/p4RuntimeSerializer.cpp:639-653 | grants a free explicit id, reports a taken one |
| SymbolTables.P4RuntimeSymbolTable.ComputeIdsForSymbols | p4c/control-plane/p4RuntimeSerializer.cpp:662-703 | each name without an id gets the first one, in cyclic order from its own hash, that was not taken and that no smaller such name got; or none, if all of them are |
| SymbolTables.P4RuntimeSymbolTable.ProbeForId | p4c/control-plane/p4RuntimeSerializer.cpp:715-727 | ends in spite of the wrap-around; no id iff all are taken |
| Aliases.SplitInjective | p4c/control-plane/p4RuntimeSerializer.cpp:471-473 | different symbols have different components |
| Aliases.ShortestUniqueSuffix | p4c/control-plane/p4RuntimeSerializer.cpp:493-519 | the alias is the shortest suffix no other symbol has, or the whole symbol |
| Aliases.AliasPathsDiffer | p4c/control-plane/p4RuntimeSerializer.cpp:493-519 | different symbols have different alias paths |
| Aliases.AliasClashIff | p4c/control-plane/p4RuntimeSerializer.cpp:521-530 | two alias texts are equal iff a symbol is hidden behind empty components |
| Aliases.NoEmptyComponents | p4c/control-plane/p4RuntimeSerializer.cpp:521-530 | without empty components aliases are injective |
| Aliases.LeadingDotClashes | p4c/control-plane/p4RuntimeSerializer.cpp:523-527 | `a` and `.a` have the same alias |
| SuffixSets.P4SymbolSuffixSet.AddSymbol | p4c/control-plane/p4RuntimeSerializer.cpp:453-491 | every trie node's count stays the number of symbols with that suffix |
| SuffixSets.P4SymbolSuffixSet.ShortestUniqueSuffix | p4c/control-plane/p4RuntimeSerializer.cpp:493-530 | the walk down the trie gives the specified alias |
| SuffixSets.P4SymbolSuffixSet.Serialize | p4c/control-plane/p4RuntimeSerializer.cpp:521-529 | the components joined with dots, but none while the text is empty |
| Worklist.ForAllEvaluatedBlocks | p4c/control-plane/p4RuntimeSerializer.cpp:1507-1531 | each reachable block once, in order of its distance, and the distances are least |
| Worklist.AddChildren | p4c/control-plane/p4RuntimeSerializer.cpp:1521-1529 | unvisited children join the frontier once; frontier and visited stay disjoint |
| Worklist.LevelIsLeast | p4c/control-plane/p4RuntimeSerializer.cpp:1507-1531 | no walk reaches a block earlier than its level |
| Expressions.Stream.DbPrint | p4c/ir/dbprint-expression.cpp:38-233 | appends the specified tokens, which a reader with levels of its own reads back (`ExprReader.ReadBackIff`), and leaves the precedence as it was |
| Expressions.Stream.PrintUnary | p4c/ir/dbprint-expression.cpp:38-45 | the operand at prefix precedence, in parentheses where a postfix is asked for |
| Expressions.Stream.PrintBinary | p4c/ir/dbprint-expression.cpp:48-56 | left operand, operator and right operand, in parentheses where the specified text has them; `ExprParens.OperateText` says where that is |
| Expressions.Stream.PrintMux | p4c/ir/dbprint-expression.cpp:129-137 | the three operands at their precedences |
| Expressions.Stream.PrintMember | p4c/ir/dbprint-expression.cpp:84-88 | the base at postfix precedence, then the name, followed by the original one if it was renamed |
| Expressions.Stream.PrintSlice | p4c/ir/dbprint-expression.cpp:59-65 | base at postfix precedence, bounds at the lowest |
| Expressions.Stream.PrintArrayIndex | p4c/ir/dbprint-expression.cpp:148-153 | base at postfix precedence, index at the lowest |
| Expressions.Stream.PrintCall | p4c/ir/dbprint-expression.cpp:182-201 | arguments with commas between them |
| Expressions.Stream.PrintList | p4c/ir/dbprint-expression.cpp:215-228 | components with commas between them |
| ExprReader.ReadsBack | p4c/ir/dbprint-expression.cpp:38-228 | reading an expression's text, inside any other, is going on from that expression |
| ExprReader.ReadAllPrinted | p4c/ir/dbprint-expression.cpp:38-228 | an expression without negative constants, Booleans, renamed names and absolute paths is read back as itself at every precedence |
| ExprReader.PrecIsLevel | p4c/ir/dbprint.h:30-43 | the printer's precedences are the levels of the language |
| ExprReader.ReadBackIff | p4c/ir/dbprint-expression.cpp:38-228 | an expression can be read back iff it has none of these four |
| ExprReader.PrintsApart | p4c/ir/dbprint-expression.cpp:38-228 | different expressions with none of these four print differently |
| ExprReader.StatementText | p4c/ir/dbprint-expression.cpp:38-233 | as a statement an expression ends in a semicolon, unless it is a literal that prints none |
| ExprParens.OperateText | p4c/ir/dbprint-expression.cpp:48-56 | the left operand of a binary operator is in parentheses iff it is looser, the right one iff it is not tighter, by the levels of the language |
| ExprParens.BehindText | p4c/ir/dbprint-expression.cpp:38-228 | where an operand that something follows is in parentheses |
| ExprParens.AheadText | p4c/ir/dbprint-expression.cpp:38-228 | where an operand behind something is |
| ExprParens.LeftParensAreNeeded | p4c/ir/dbprint-expression.cpp:38-228 | without the parentheses of an operand that something follows, the text is that of another expression and is read as that one |
| ExprParens.RightParensAreNeeded | p4c/ir/dbprint-expression.cpp:38-228 | nor can those of an operand behind something be left out |
| ExprReader.NegativeConstantsCollide | p4c/ir/dbprint-expression.cpp:78-82 | a negative constant prints like a negation |
| ExprReader.BooleansCollide | p4c/ir/dbprint-expression.cpp:119-122 | a Boolean literal prints like the constant 1 or 0 |
| ExprReader.RenamedPathsCollide | p4c/ir/id.h:42-43 | a renamed path prints like a quotient |
| ExprReader.RenamedMembersCollide | p4c/ir/id.h:42-43 | and so does a renamed member |
| ExprReader.AbsolutePathsCollide | p4c/ir/base.def:151-168 | an absolute path prints like a relative one |
| ExprTwins.AnotherPrintsAlike | p4c/ir/dbprint-expression.cpp:38-228 | every expression with one of these four, wherever it stands, prints like some other expression |
| WrittenOnce.FirstMentionIsFull | p4c/ir/json_generator.h:136-145 | whatever the graph, a node is written in full, with its fields that are not null in order, exactly where the text mentions it first |
| GraphJsonProof.PointerBack | p4c/ir/json_loader.h:62-73 | a reference resolves to the object already built, a full node to a new one that is then kept |
| GraphJsonProof.ObjectBack | p4c/ir/json_generator.h:136-145 | a node written in full is rebuilt field by field |
| GraphJsonProof.LoadableRoundTrips | p4c/ir/json_loader.h:62-82 | an acyclic graph without null strings and shared vectors comes back isomorphic |
| GraphJsonProof.RoundTripIff | p4c/ir/json_loader.h:62-91 | the graph comes back iff it is acyclic, no reachable string is null and no vector is shared |
| NullStrings.LoadedHaveNone | p4c/ir/json_loader.h:154-155 | if a written graph can be loaded at all, no object that was loaded had a null string |
| LostGraphs.SharedVectorIsLost | p4c/ir/json_loader.h:84-87 | an acyclic graph with a shared vector does not come back |
| LostGraphs.NullStringIsLost | p4c/ir/json_generator.h:104-109 | one node with a null name does not come back |
| LostGraphs.QuotedStringIsLost | p4c/ir/json_parser.h:175-180 | one node with a quote in its name comes back from its value, but not from its text |
| LoadedShape.LoadedIsShaped | p4c/ir/json_loader.h:62-91 | whatever is loaded is acyclic, no vector of a vector field is shared, and later nodes get new ids |
| JsonText.ParsesBack | p4c/ir/json_parser.h:134-206 | the text of a value is read back, with any whitespace, and nothing behind it is consumed |
| JsonText.StringBackIff | p4c/ir/json_parser.h:175-180 | a string is read back iff it holds no double quote |
| JsonText.NumberBack | p4c/ir/json_parser.h:181-188 | a number of any size is read back if no digit follows |
| JsonReader.Stream.Read | p4c/ir/json_parser.h:134-206 | the value and the place the stream is left at are the specified ones; reading always ends |
| JsonReader.Stream.ReadObject | p4c/ir/json_parser.h:139-156 | keys in order, a repeated key overwritten in place |
| JsonReader.Stream.ReadVector | p4c/ir/json_parser.h:157-174 | the elements in order |
| JsonLayout.LayoutOk | p4c/ir/json_generator.h:136-145 | the generator's layout is a text of the value |
| JsonLayout.ParseIsClean | p4c/ir/json_parser.h:134-206 | whatever the text, no string read from it holds a quote and no object repeats a key |
| JsonLayout.TextBackIff | p4c/ir/json_parser.h:134-206 | a value comes back from the generator's text iff no string in it holds a quote and no object repeats a key |
| JsonLayout.NodeClean | p4c/ir/json_generator.h:136-145 | what is written from a closed part of the graph repeats no key and, if that part has no quotes, holds none |
| JsonLayout.TextRoundTripIff | p4c/ir/json_loader.h:47-48 | generator, reader and loader together restore the graph iff it is acyclic, no reachable string is null or has a quote, and no vector is shared |
| JsonWriter.JSONGenerator.GenerateNode | p4c/ir/json_generator.h:136-145 | appends the laid-out text, records the ids written, and restores the indentation |
| JsonWriter.JSONGenerator.GenerateFields | p4c/tools/ir-generator/methods.cpp:102-115 | every field but null pointers, in order; a null string as `null` |
| JsonWriter.JSONGenerator.GenerateVector | p4c/ir/ir-inline.h:138-148 | the elements, one a line |
| JsonLoader.JSONLoader.GetNode | p4c/ir/json_loader.h:62-73 | the object and the ids kept are the specified ones |
| JsonLoader.JSONLoader.Construct | p4c/ir/node.cpp:31-37 | the id is that of the text or a new one, and no later node gets it |
| JsonLoader.JSONLoader.LoadAll | p4c/tools/ir-generator/methods.cpp:116-125 | every field by its name, absent ones at their defaults |
| JsonLoader.JSONLoader.Unpack | p4c/ir/json_loader.h:148-180 | by the field's type; a vector pointer calls the vector's constructor |
| JsonLoader.JSONLoader.UnpackVector | p4c/ir/json_loader.h:75-82 | the elements in order |
| Vectors.Vector.VisitChildren | p4c/ir/ir-inline.h:64-93 | the vector becomes the concatenation of what stands in the place of its elements |
| Vectors.Vector.Splice | p4c/ir/ir-inline.h:66-91 | one element is erased, kept, overwritten or spliced |
| Vectors.FlatMapSplits | p4c/ir/ir-inline.h:64-93 | visiting a list is visiting its two parts one after the other |
| Vectors.ElementBecomes | p4c/ir/ir-inline.h:66-91 | whatever stands around an element: it vanishes, stays, is replaced, or gives way to the elements of a vector, by what the visitor returns |
| Vectors.FlatMapSame | p4c/ir/ir-inline.h:69-70 | a visitor that returns the elements leaves the list as it is |
| IndexedVectors.IndexedVector.InsertInMap | p4c/ir/indexed_vector.h:46-55 | a new name is added, a known one reported |
| IndexedVectors.IndexedVector.RemoveFromMap | p4c/ir/indexed_vector.h:56-64 | the name is removed; a missing one is a bug |
| IndexedVectors.IndexedVector.GetDeclaration | p4c/ir/indexed_vector.h:91-95 | the declaration of the name, iff there is one |
| IndexedVectors.IndexedVector.Erase | p4c/ir/indexed_vector.h:105-107 | one element less, and the index is right |
| IndexedVectors.IndexedVector.Insert | p4c/ir/indexed_vector.h:108-112 | a duplicate is reported iff there then is one; else the index is right |
| IndexedVectors.IndexedVector.InsertOne | p4c/ir/indexed_vector.h:121-123 | the same for one element put in between |
| IndexedVectors.IndexedVector.Append | p4c/ir/indexed_vector.h:118-120 | the same for several elements at the end |
| IndexedVectors.IndexedVector.Replace | p4c/ir/indexed_vector.h:113-117 | the same for one element replaced |
| IndexedVectors.IndexedVector.PushBack | p4c/ir/indexed_vector.h:127-128 | the same at the end |
| IndexedVectors.IndexedVector.PopBack | p4c/ir/indexed_vector.h:129-134 | the last element goes, unless there is none |
| IndexedVectors.IndexedVector.CheckValid | p4c/ir/indexed_vector.h:152-155 | true iff every element is in the index under its name |
| IndexedVectors.IndexedVector.VisitChildren | p4c/ir/ir-inline.h:163-181 | the concatenation; a duplicate is reported iff there is one at some moment, else the index is right |
| IndexedVectors.WithIndexed | p4c/ir/indexed_vector.h:46-55 | adding an element keeps the index right iff its name is free |
| IndexedVectors.WithoutIndexed | p4c/ir/indexed_vector.h:56-64 | removing an element keeps the index right |
| IndexedVectors.ExchangeIsReported | p4c/ir/ir-inline.h:175-176 | exchanging two names is reported though no duplicate remains |
| Bitvec.BitVector.ShiftRight | p4c/lib/bitvec.cpp:38-60 | the value divided by a power of two, without a zero word on top |
| Bitvec.BitVector.ShiftLeft | p4c/lib/bitvec.cpp:62-78 | the value times a power of two, modulo the size; and that size |
| Bitvec.BitVector.Expand | p4c/lib/bitvec.h:383-406 | the same bits in the rounded number of words |
| Bitvec.BitVector.Max | p4c/lib/bitvec.h:99-113 | the greatest bit that is set, or -1 |
| Bitvec.BitVector.GetSlice | p4c/lib/bitvec.cpp:80-104 | for up to one word, the bits from the index on: a quotient modulo a power of two |
| Bitvec.BitVector.Ffs | p4c/lib/bitvec.cpp:106-122 | the least bit set at or after the start, or -1 |
| Bitvec.BitVector.Ffz | p4c/lib/bitvec.cpp:124-139 | the least bit clear at or after the start; always ends |
| Bitvec.BitVector.Next | p4c/lib/bitvec.h:84-98 | the least bit set behind the iterator, or -1 |
| Bitvec.BitVector.Ranges | p4c/lib/bitrange.h:26-48 | ascending, disjoint, maximal runs that cover exactly the bits set |
| Bitvec.ExactIff | p4c/lib/bitvec.cpp:62-78 | the shift up is the exact product iff the greatest bit finds room |
| Bitvec.OneWordShortIff | p4c/lib/bitvec.cpp:63-64 | with the size computed, it is inexact iff that bit would be the first behind the words |
| Bits.DownIsDivision | p4c/lib/bitvec.cpp:46-53 | moving bits down is dividing by a power of two |
| Bits.UpIsProduct | p4c/lib/bitvec.cpp:70-77 | moving bits up is multiplying, modulo the size |
| Bits.SliceIsDivMod | p4c/lib/bitvec.cpp:96-103 | a slice is a quotient modulo a power of two |
| MatchKeys.BuildMatchValue | p4c-bmv2/p4c_bm/gen_json.py:216-224 | the digits are those of the specified packing |
| MatchKeys.PackedLength | p4c-bmv2/p4c_bm/gen_json.py:216-228 | two digits for each byte counted iff no width is zero |
| MatchKeys.UnpacksBack | p4c-bmv2/p4c_bm/gen_json.py:216-224 | the fields of the packed text are the value modulo two to the sum of the widths |
| MatchKeys.PackedAnd | p4c-bmv2/p4c_bm/gen_json.py:216-224 | packing goes through bitwise and, digit by digit |
| MatchKeys.MaskedMatchIff | p4c-bmv2/p4c_bm/gen_json.py:329-335 | masked matching on packed keys is masked matching on the bits |
| MsgCodec.RoundTripsIff | bmv2/tools/p4dbg.py:269-328 | all fields and the full length come back iff every row is counted in bytes, or empty |
| MsgCodec.Restored | bmv2/tools/p4dbg.py:269-328 | all fields come back if only the last row is counted in larger units |
| MsgCodec.FilterEndsEarly | bmv2/tools/p4dbg.py:446-451 | a filter on one id returns too short a length |
| MsgCodec.TypeIsRead | bmv2/tools/p4dbg.py:1120-1124 | reading any message as a `BasicMsg` gives its type |
| MsgCodec.HeaderBytes | bmv2/tools/p4dbg.py:355-360 | any sixteen bytes hold type, switch and request, as sums of their bytes; fewer hold no message |
| MsgBack.WritesBack | bmv2/tools/p4dbg.py:390-396 | any bytes that are read as a message are written again as they were, if only its last row is counted in larger units |
| MsgCodec.WaitForMsg | bmv2/tools/p4dbg.py:1120-1129 | of any bytes, the class registered for the signed number in the first four is chosen if the bytes can be read as it, and the attributes are those read; of the bytes of a message, every field is restored |
| MsgCodec.Message.Read | bmv2/tools/p4dbg.py:269-297 | the parent's fields and then the class's own, as specified |
| MsgCodec.Message.Write | bmv2/tools/p4dbg.py:313-328 | the parent's bytes and then the class's own, as specified |

## Left out

- `PassRepeated`, `PassRepeatUntil`: loops around the pass manager; the repeat count allows one round more than it says.
- Source positions and the original names of an `ID` in the rewritten trees: `operator==` does not compare them, and `finish` drops a change of these alone.
- Cyclic graphs in `Modifier` and `Transform`: their tree has no finite unfolding; the detection of loops is proved for `Inspector`.
- `Transform` callbacks that return an arbitrary existing node: the model has the clone, null, a child, or a fresh node.
- Fresh nodes in the children that preorder leaves in the clone: preorder selects among them, and each stays a field or an element of its vector; postorder builds any tree over them.
- Callbacks that look at the context, that is, at the parents of the node.
- The types of fields and elements: what is put in one is not checked. The index of an `IndexedVector` that is rewritten is in `IndexedVectors`.
- RewriteProof.MemoisedIsPlain: asks that it does not matter what was visited before, because it is false otherwise (`RewriteHistory.HistoryFreeIff`). With memoisation but no forwarding it still asks that a vector for an element is not a child taken as the result and does not come from a pruned visit with elements in it.
- RewriteHistory.HistoryFreeIff: is for visitors whose actions show. Left open are those that return, for another node, a vector that is one of its children or comes from a pruned visit with elements in it; whose new elements change on a second visit but the list of them does not, or hold new nodes that are not left alone; and those that rebuild a vector without changing its tree although nothing in it depends on what was visited before. For some of these `RewriteProof.MemoisedIsPlain` still gives one direction.
- `revisit_visited`, the context stack, `child_index`, `Visitor::Profile` and `validate` after a visit.
- What the trigger of a backtrack holds: the model passes it on unchanged. An early exit is asked for by a pass that is being applied, of the manager that applies it.
- The values of `PI_INVALID_ID` and of the resource types, from headers that are not part of this model, and the Jenkins hash: parameters; uniqueness of ids asks that the invalid id is outside the resource types.
- The rest of the serializer: Protobuf output, annotations, header field paths, table properties.
- Lexing: printed expressions are rows of tokens, and a string literal is one of them whatever it holds; the types of expressions, which are not printed; casts, type arguments, constructor calls, `Primitive`, `If`, `Apply` and `SelectExpression` are not printed.
- JsonLayout.TextRoundTripIff: asks that the names of classes and fields hold no double quote, which they do not, being C++ names.
- Original names and source positions in JSON, which are not written.
- `declarations` of an `IndexedVector` in JSON, `NameMap`, `NodeMap`, enums, bit matrices and `match_t`: their entries are pointers already written, or plain values.
- Type checks of loaded pointers (`to<T>`), and ids beyond the range of `int`: a pointer that is null where the loader dereferences it is a failed load.
- Reading a number: GMP is not part of this model; a minus sign must be followed by a digit.
- JSON texts on which the reader leaves a value unset are a failed parse.
- Bitvec.BitVector.ShiftLeft: does not cover shifting a single word by its width or more, which the language leaves undefined and the code reaches for values up to one.
- Bitvec.BitVector.GetSlice: covers slices of at most one word, because the loop for wider ones never moves its index on.
- Truncation of counts and sizes to `int` in the shifts: vectors of 2^31 words.
- MatchKeys.BuildMatchValue: leaves out the "0x" in front and writes digits as numbers.
- MsgCodec.WaitForMsg: a message counts as restored if at most its last row is counted in larger units, as in all classes of the debugger.
- The derived attributes `name_str` and `name_int`, `__str__` and the byte order of other machines in the codec; numbers are written lowest byte first.
- The debugger's commands, Thrift, nanomsg, the machine-learning scripts, Mininet demos, profiling and logging: glue without invariants of its own.
