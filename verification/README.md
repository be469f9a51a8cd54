# MapleFE: verified models of its graph algorithms, its AST serializer and its printer

MapleFE generates front ends from grammars, builds syntax trees, analyses them, stores and loads
them, and prints them again. This project models six of its components and proves what each is for.
Code that changes objects is modelled by classes whose methods are proved against specification
functions; what the components promise is then proved about those functions or is an `ensures` of
the outermost method.

- **Left recursion** (`RecDetect.dfy`, with `Graphs`, `Grammar`, `ContTrees`, `Recursions`,
  `RecCycles`, `RecPatch`, `RecTheorems`, `RecGroups`, `RecExact`, `RecWalk`, `RecEdges`,
  `RecExamples`). A depth-first walk over the rule tables of a grammar classifies rules and records a cycle for every back edge; a change-driven loop spreads the
  recursions, a reachability test groups them. Proved: the groups are exactly the strongly connected
  components of the left-edge graph, restricted to the rules the top rules reach. The argument is that
  a done rule in no recursion has left edges only to rules done before it, so every cycle meets a
  recursion, and that a pass that finds nothing to patch has spread it over the whole cycle. The recorded paths
  are one for each back edge of the walk, and no more. The edges are
  those of the grammar if nullable rules are so without the rules on left cycles with them, and need not be otherwise.
- **Control flow and reaching definitions** (`CfgBuild.dfy`, with `CfgBlocks`, `CfgSource`,
  `CfgRuns`, `CfgSpec`, `CfgFrame`, `CfgSim`, `CfgCorrect`, `CfgFunction`, `CfgContinue`,
  `CfgExamples`, `CfgShapes`; `Cfa`, with `CfgOrder`; `AstDfa`, with `Dfa`,
  `DfaDefs`, `DfaEffects`, `DfaExact`, `DfaHomes`, `DfaExamples`). Structured statements become basic blocks. Proved: walking the graph under
  any list of decisions gives exactly the statements the body runs, unless a run meets a continue that
  is meant for a for loop with updates or for a do loop, and then it does not; reachability and pruning leave the
  graph of the reachable blocks; the bit-vector worklist ends with the least solution, which is what
  paths justify; on every run the last node that can change a variable, by what nodes do to an environment of
  variables and fields, has its bit on; and a bit is on only where a path brings its definition unchanged.
- **Storing and loading trees** (`AstStores.dfy`, `AstLoads.dfy`, with `Leb128`, `AstData`,
  `AstReading`, `AstRoundTrip`, `AstModules`, `AstFormat`, `AstOrder`, `AstExamples`; `Literals` for the escaping
  of string literals). Node kinds are described by a schema of field types. Proved: loading undoes storing up to
  an isomorphism, module after module, and sharing is kept; the nodes are stored in left-to-right preorder, and
  nothing loads that does not have the form of a module.
- **Printing operators** (`Emitters.dfy`, with `Operators`, `OperatorParser`, `OperatorRoundTrip`,
  `EcmaGrammar`, `EcmaRoundTrip`). Proved: what is printed parses back, in the grammar of the operator table for
  all trees, in that of ECMA-262 exactly for the trees it allows; by the standard's own productions it is then
  that tree and no other.
- **Versions of variables** (`RenameVars.dfy`, with `VersionNames`, `Scopes`, `Renaming`, `Bindings`,
  `RenameExamples`).
  Proved: which name every identifier ends with, and exactly when every identifier still stands for what it
  stood for, in one order of the names and in all.
- **Lookaheads** (`LaDetect.dfy`, with `LookAheads`, `LaStates`, `LaFlow`, `LaPatch`, `LaComplete`,
  `LaOnce`, `LaWalk`, `LaExamples`).
  A depth-first walk collects what each rule can begin with, and rules that met a rule in process are
  patched afterwards. Identifiers and literals are terminals here, as they are to the walk. Proved: what
  is recorded is sound for every grammar; every list has what its elements have, except where a list was
  copied from a finished rule that still waited for a patch, which takes a left recursion. The lists are
  exactly what a rule can begin with, strings up to their length, in a grammar without left recursion, and in
  one where no rule on a left cycle derives the empty string and the rules of a cycle, but for one of them, are
  mentioned in one place.

Where the code does not do what one would expect, the model follows the code:

- A string lookahead counts as equal to one of its length that it differs from, and as different from
  itself (`shared/src/ruletable_util.cpp:242`).
- A rule that copies lookaheads from a finished rule which waits for a patch does not wait itself
  (`ladetect/la_detect.cpp:217-222`, `ladetect/la_detect.cpp:311-313`), so it can miss some; a rule
  that has a string and itself as elements is never finished.
- `continue` in a `for` loop goes past the updates, in a `do` loop past the condition
  (`astopt/src/ast_cfg.cpp:243`, `astopt/src/ast_cfg.cpp:319`).
- A conditional or a block with a label or lexical declarations after a jump in the same list opens the ended block again
  (`astopt/src/ast_cfg.cpp:158`, `astopt/src/ast_cfg.cpp:544`), so the graph can go on past the jump.
- A rule that refers to a rule in process is filed as if that rule did not derive the empty string
  (`recdetect/rec_detect.cpp:325-331`); a rule that does is then filed as Fail.
- `(-x) ** y` and a mix of `??` with `||` or `&&` are printed without the parentheses that ECMA-262 demands.
- Renaming an identifier below a declaration node renames that node, even if the identifier is the
  initial value (`astopt/src/ast_scp.cpp:714-716`); functions, classes and imports that share a name with
  variables are not versioned; and `var x = x` in an inner block makes the block one of the scopes that declare
  `x`, although the variable belongs to the function (`astopt/src/ast_scp.cpp:694-699`).
- `x.f++` and `a.b.c = 1` are taken to define nothing, although they change `x` and `a` (`astopt/src/ast_dfa.cpp:163-207`).
- A definition reaches the next blocks even if its own block defines the name again after it (`astopt/src/ast_dfa.cpp:364-373`).
- A control character right after a backslash is escaped into one symbol more (`scripts/maplefe-autogen.py:505-533`).
- A pointer to the parent node is overwritten by the setters of every node that refers to the child
  (`shared/include/ast.h:58`).

## Model

| member | source | states |
|---|---|---|
| `RecDetect.DetectAll` | recdetect/rec_detect.cpp:602-653 | Both passes together: a rule is mapped to a group exactly when it is reachable from the top rules and lies on a left-edge cycle; two mapped rules have the same group exactly when each is left-reachable from the other. So each rule has at most one group, and the groups are the strongly connected components of left recursion. Left edges are those of the recorded classes. If reachable nullable rules are so without the rules on left cycles with them, the classes are exact and the edges those of the grammar: a choice then has a nullable element off such cycles, a concatenation has all its elements off them, optional and repeated elements may be on them |
| `RecExamples.Misjudged` | recdetect/rec_detect.cpp:602-614 | The run on a concrete grammar from its first rule: a rule that derives the empty string is filed as Fail, because the rule it refers to is in process |
| `RecExamples.JudgedRight` | recdetect/rec_detect.cpp:602-614 | The run on the same grammar from its second rule files all rules as they are |
| `RecExamples.TwoPaths` | recdetect/rec_detect.cpp:325-331 | The run on E: F or a token, F: G or E, G: E '+': two paths are recorded for E, [0, 0, 0] and [0, 1], although F is in the recursion already when its element E is met, and there is no other recursion |
| `RecExact.FailIsRight` | recdetect/rec_detect.cpp:370-382 | If reachable nullable rules are so without the rules on left cycles with them, no nullable rule is filed as Fail |
| `RecExact.FailedIsRight` | recdetect/rec_detect.cpp:325-331 | The same for one rule, by induction on the rules it comes to by left edges: the element that made it fail was met in process, and is on a left cycle with it, or has failed itself |
| `RecExact.NoCycleIsEnough` | recdetect/rec_detect.cpp:325-331 | The proviso holds if no reachable nullable rule is on a left cycle |
| `RecExact.SameGraph` | recdetect/rec_detect.cpp:719-796 | Then cycles and mutual reachability, as LRReachable sees them, are those of the grammar |
| `RecExact.NullableOnCycle` | recdetect/rec_detect.cpp:325-331 | The grammar of the two runs does not meet the proviso |
| `RecDetect.RecDetector.Detect` | recdetect/rec_detect.cpp:602-653 | All phases end. A rule is in some recursion exactly when it is reachable and on a left-edge cycle; the reachable rules are split into MaybeZero and Fail, which are the lists of the walk as a function of the grammar; every MaybeZero rule derives the empty string; no Fail rule does, if no lead is MaybeZero or if the grammar meets the proviso. What is recorded is told from the walk as a function: a rule is the lead of a recursion exactly if some element that the walk came to goes back to it, and the paths of that recursion are one for each such element, (rule, element index), in the order met: the simple cycle through the rules then in process |
| `RecDetect.RecDetector.TraverseAll` | recdetect/rec_detect.cpp:602-614 | The walk ends with nothing in process or to do, and Done holds exactly the rules reachable from the top rules; the lists it leaves are a function of the grammar and the top rules |
| `RecDetect.RecDetector.DetectFront` | recdetect/rec_detect.cpp:605-614 | One round of the main loop keeps the invariant, forgets no rule it knew, and either finishes a rule or shortens ToDo |
| `RecDetect.RecDetector.DetectRuleTable` | recdetect/rec_detect.cpp:303-334 | One call leaves InProcess as it was; the rule is done and classified, or it was in process, and then the path through the rules in process from it on and back to it has been added to its recursion, together with these rules; lists and result are those of the walk as a function |
| `RecDetect.RecDetector.DetectNewRule` | recdetect/rec_detect.cpp:333-385 | A rule met first is pushed, walked by its type, popped, and filed once under the class the walk gave it |
| `RecDetect.RecDetector.DetectOneof` | recdetect/rec_detect.cpp:392-423 | MaybeZero exactly if an element is; all elements are walked |
| `RecDetect.RecDetector.DetectZeroorXXX` | recdetect/rec_detect.cpp:426-436 | The element is walked, the result is MaybeZero whatever it is |
| `RecDetect.RecDetector.DetectData` | recdetect/rec_detect.cpp:438-464 | The class of the one element |
| `RecDetect.RecDetector.DetectConcatenate` | recdetect/rec_detect.cpp:552-598 | Elements are walked up to the first that fails, the rules after it are in process, done or to do; MaybeZero exactly if none fails |
| `RecDetect.RecDetector.MergeOneof` | recdetect/rec_detect.cpp:405-419 | The class of the elements so far joined with the next, where Done stands for the class already filed |
| `RecDetect.RecDetector.AddToDo` | recdetect/rec_detect.cpp:139-142 | The rule is added unless it is in process, done or waiting |
| `RecDetect.RecDetector.AddToDoFrom` | recdetect/rec_detect.cpp:145-153 | Every rule among the elements from the start index on is known afterwards, and nothing else is added |
| `RecDetect.RecDetector.AddRecursion` | recdetect/rec_detect.cpp:212-268 | After a back edge the recursion of the target, a new one if there was none, has one more path, whose positions lead through the rules in process from the target on and back to it, and has these rules; every recorded path is a simple cycle; nothing else has changed |
| `RecDetect.RecDetector.CollectNodes` | recdetect/rec_detect.cpp:221-240 | Walking up from the node gives the rules in process from the target on, in reverse, after the back edge's target |
| `RecDetect.RecDetector.RecordPath` | recdetect/rec_detect.cpp:242-256 | The positions recorded are a route along the given rules: each is the first index of a rule in the one before it, in a left position |
| `RecDetect.RecDetector.AddCycle` | recdetect/rec_detect.cpp:258-267 | The path and its rules join the recursion of its lead, nothing else changes, and each rule is linked with that recursion |
| `RecDetect.RecDetector.FindOrCreateRecursion` | recdetect/rec_detect.cpp:272-285 | Leads stay distinct: the recursion of the rule, or a new empty one |
| `RecDetect.RecDetector.FindRule2Recursion` | recdetect/rec_detect.cpp:171-181 | The entry of the rule; without one, no entry has that rule |
| `RecDetect.RecDetector.AddRule2Recursion` | recdetect/rec_detect.cpp:184-206 | The rule joins the recursion's rules and the recursion the rule's entry; the two tables still mirror each other |
| `RecEdges.EdgesAreExact` | recdetect/rec_detect.cpp:303-334 | The back edges of the walk are exactly the elements (rule, index) that it came to and whose rule was in process, finished no earlier than the rule it was met from; each is met once |
| `RecEdges.PathsAreExact` | recdetect/rec_detect.cpp:212-268 | So the paths of a recursion are those of the back edges to its lead, one each and no more, and exactly the targets of back edges are leads |
| `RecEdges.RecordedIs` | recdetect/rec_detect.cpp:258-285 | Recorded one after the other, back edges to one target share a recursion and keep their order |
| `RecDetect.RuleFindChildIndex` | shared/src/ruletable_util.cpp:124-150 | The least index of the child, found exactly if it is an element |
| `RecDetect.RecDetector.LRReachable` | recdetect/rec_detect.cpp:719-796 | Ends, and is true exactly if a chain of left edges, possibly empty, leads from the one rule to the other |
| `RecDetect.RecDetector.PushLeftChildren` | recdetect/rec_detect.cpp:744-790 | Exactly the left children are pushed; a concatenation gives those up to and including the first that is not MaybeZero |
| `RecDetect.RecDetector.BackPatch` | recdetect/rec_detect.cpp:657-709 | Either nothing changes and the rule is patched with respect to all its elements, or a new pair of rule and recursion was added |
| `RecDetect.RecDetector.BackPatchChild` | recdetect/rec_detect.cpp:661-707 | The same for one element, with the parent's entry fetched once before the loop |
| `RecDetect.RecDetector.BackPatchPass` | recdetect/rec_detect.cpp:640-651 | A pass that changes nothing found every reachable rule patched; any other added a pair |
| `RecDetect.RecDetector.BackPatchAll` | recdetect/rec_detect.cpp:638-652 | The change-driven loop ends with every reachable rule patched |
| `RecDetect.RecDetector.ShareRecursion` | recdetect/rec_detect.cpp:673-686 | True exactly if the two lists share a recursion |
| `RecDetect.RecDetector.FindRecursionGroup` | recdetect/rec_detect.cpp:799-814 | A group that holds the recursion, or none does |
| `RecDetect.RecDetector.GroupRecursions` | recdetect/rec_detect.cpp:822-843 | The groups partition all recursions into the classes of mutual left-reachability of their leads |
| `RecDetect.RecDetector.DetectGroups` | recdetect/rec_detect.cpp:822-857 | In addition a rule is mapped to a group exactly if a recursion of that group contains it |
| `RecDetect.RecDetector.BuildRule2Group` | recdetect/rec_detect.cpp:845-856 | The map from rules to groups holds exactly those pairs |
| `RecDetect.RecDetector.AddRule2Group` | recdetect/rec_detect.cpp:859-874 | The pair is added, others stay |
| `Recursions.PushKeepsInv` | recdetect/rec_detect.cpp:329-334 | Pushing a rule keeps the whole invariant: InProcess is the repeat-free path of the tree, disjoint from Done, and all done rules carry evidence for their class |
| `Recursions.FinishKeepsInv` | recdetect/rec_detect.cpp:360-384 | So does finishing the top rule with the outcome of its walk |
| `Recursions.BackEdgeKeepsInv` | recdetect/rec_detect.cpp:329-331 | So does a back edge, which adds a recursion and nothing else |
| `RecTheorems.AllDone` | recdetect/rec_detect.cpp:605-614 | With nothing left to do, exactly the reachable rules are done |
| `RecTheorems.EdgesGoBack` | recdetect/rec_detect.cpp:32-42 | A done rule in no recursion has left edges only to rules done before it |
| `RecTheorems.CycleMeetsRecursion` | recdetect/rec_detect.cpp:304-312 | Every left-edge cycle through a done rule meets a recorded recursion |
| `RecTheorems.PatchReachesCycle` | recdetect/rec_detect.cpp:655-709 | Once all rules are patched, a recursion that meets a cycle has spread to every rule mutually reachable with it |
| `RecTheorems.RecursionsAreCycles` | recdetect/rec_detect.cpp:602-653 | Together: a rule is in a recursion exactly if it is reachable and on a left-edge cycle |
| `RecTheorems.FailIsNotNullable` | recdetect/rec_detect.cpp:325-331 | A rule that derives the empty string is never classified as Fail, as long as no lead is MaybeZero: only the guess made for back edges can be wrong |
| `RecTheorems.NullableIsExact` | recdetect/rec_detect.cpp:370-382 | The classification for the leads as finally recorded |
| `RecCycles.CycleAdded` | recdetect/rec_detect.cpp:258-267 | Adding a cycle keeps leads distinct and every recorded path a simple cycle of mutually reachable rules |
| `RecCycles.ClosedRoute` | recdetect/rec_detect.cpp:242-256 | The rules in process from the target on, closed by the back edge, are a simple cycle: distinct rules that return to the lead at the last index |
| `RecCycles.RouteIsMutual` | recdetect/rec_detect.h:133-134 | All rules of a closed route are mutually left-reachable with its start |
| `RecPatch.JoinKeeps` | recdetect/rec_detect.cpp:697-705 | A rule between a lead and one of the lead's rules may join the recursion: it is on a cycle through the lead |
| `RecPatch.MissingShrinks` | recdetect/rec_detect.cpp:638-652 | Each changing pass leaves fewer pairs of rule and recursion missing, so the loop ends |
| `RecGroups.NotGroupedYet` | recdetect/rec_detect.cpp:834-841 | The assertion that rec_j has no group yet never fails |
| `RecGroups.GroupComplete` | recdetect/rec_detect.cpp:816-843 | One inner pass finds all recursions of the group that was just founded |
| `RecGroups.GroupsAreComponents` | recdetect/rec_detect.cpp:822-857 | A rule is in some group exactly if it is in some recursion, and two rules are in one group exactly if they are mutually left-reachable |
| `RecGroups.SameGroup` | recdetect/rec_detect.cpp:845-856 | The same for two given rules and groups |
| `Grammar.NullableIntro` | recdetect/rec_detect.cpp:387-391 | A rule with a right-hand side of nullable rules derives the empty string |
| `CfgContinue.MeaningIsKept` | astopt/src/ast_cfg.cpp:241-247 | The graph means the body under all decisions exactly when no run of the body meets a continue that is meant for a for loop with updates or for a do loop |
| `CfgContinue.GraphMeansBody` | astopt/src/ast_cfg.cpp:65-86 | Under any decisions that do not make the body meet such a continue, the walk from the entry block lists exactly the statements the body runs and then halts at the exit block, or stops at a branch when the body has no decision left; blocks of other functions are untouched |
| `CfgContinue.ContinueGoesWrong` | astopt/src/ast_cfg.cpp:339-348 | A run that does meet one gives decisions, those up to the continue, under which the walk does not stop where the body stops |
| `CfgFunction.GraphRuns` | astopt/src/ast_cfg.cpp:65-86 | Without that proviso, the walk lists what the body runs if such a continue is taken to the loop header, past updates and condition; it goes on for ever exactly where that run does |
| `CfgContinue.ReadingsAgree` | astopt/src/ast_cfg.cpp:339-348 | Runs that meet no such continue are the same, taken as written or as built |
| `CfgContinue.ReadingsPart` | astopt/src/ast_cfg.cpp:339-348 | Cut off after such a continue, the two runs are stuck after different statements, or one goes on for ever |
| `CfgContinue.PlainIsNeverLost` | astopt/src/ast_cfg.cpp:339-348 | A body in which no continue is written for such a loop never meets one |
| `CfgRuns.RunLonger` | astopt/src/ast_cfg.cpp:157-204 | More decisions change a run only if it was stuck; else they are left over |
| `CfgExamples.ContinueSkipsUpdates` | astopt/src/ast_cfg.cpp:241-247 | A concrete for loop whose update the source runs and the graph skips |
| `CfgExamples.ContinueSkipsCondition` | astopt/src/ast_cfg.cpp:317-323 | A concrete do loop whose condition the source tests and the graph skips |
| `CfgExamples.DeadCodeRuns` | astopt/src/ast_cfg.cpp:157-165 | A concrete conditional after a return, which opens the ended block again: the graph runs a statement the source never reaches |
| `CfgExamples.DeadLoopIsHarmless` | astopt/src/ast_cfg.cpp:264-273 | A concrete loop with a conditional in it after a return, which leaves the ended block as it is: the graph does what the source does |
| `CfgShapes.WhileShape` | astopt/src/ast_cfg.cpp:261-297 | All blocks of the function while (1) 2; in their order, with kinds, statements and edges |
| `CfgShapes.DoShape` | astopt/src/ast_cfg.cpp:300-336 | Those of do 1; while (2); |
| `CfgShapes.BlockShape` | astopt/src/ast_cfg.cpp:520-574 | Those of a labelled block with a conditional that breaks out of it on one side |
| `CfgShapes.ChoiceShape` | astopt/src/ast_cfg.cpp:157-204 | Those of that conditional, behind any two blocks with the current one and the label |
| `CfgFunction.FunctionSymmetric` | astopt/include/ast_cfg.h:123-129 | After building a function, every edge is still listed equally often at both ends |
| `CfgFunction.VisitSymmetric` | astopt/src/ast_cfg.cpp:147-360 | Each visit keeps that symmetry, those of throw statements and blocks as well |
| `CfgCorrect.VisitSim` | astopt/src/ast_cfg.cpp:147-360 | Every statement modelled, throw statements and blocks as well: in any graph that agrees with the blocks made, the walk does what the statement does, from where the visit started to where it left off or to the block the jump resolves to |
| `CfgCorrect.AllSim` | astopt/src/ast_cfg.cpp:541-562 | The same for a statement list |
| `CfgCorrect.BlockSim` | astopt/src/ast_cfg.cpp:520-574 | The same for a labelled block, whose break leads behind it |
| `CfgCorrect.IfSim` | astopt/src/ast_cfg.cpp:157-204 | The same for a conditional, labelled or not, with or without false branch |
| `CfgCorrect.LoopSim` | astopt/src/ast_cfg.cpp:261-297 | The same for a loop that tests first |
| `CfgCorrect.ForSim` | astopt/src/ast_cfg.cpp:208-257 | The same for a for loop, read as it is built: a continue goes past the updates |
| `CfgCorrect.DoSim` | astopt/src/ast_cfg.cpp:300-336 | The same for a do loop, read as it is built: a continue goes past the condition, for ever if it takes no decision |
| `CfgSim.SimLoop` | astopt/src/ast_cfg.cpp:222-253 | All rounds of a loop, from what one walk through its body does |
| `CfgSim.SimDo` | astopt/src/ast_cfg.cpp:313-332 | All rounds of a do loop |
| `CfgSim.RoundsGoOn` | astopt/src/ast_cfg.cpp:317-323 | A round of a do loop that takes no decision and ends in a continue is walked for ever |
| `CfgSim.SimIf` | astopt/src/ast_cfg.cpp:163-199 | Both branches of a conditional: successor 0 is taken on true, successor 1 on false |
| `CfgFrame.VisitFrame` | astopt/src/ast_cfg.cpp:147-360 | A visit, also of a throw statement or block, changes no earlier block but the current one, except for edges into them; statements are only appended, none to a block that has ended, unless the statement opens it again; only a statement that ends in a jump leaves an ended block behind |
| `CfgBlocks.EndIsUnique` | astopt/include/ast_cfg.h:106-129 | The walk is deterministic: two ends of it from one start are the same |
| `CfgBlocks.AddSuccessorSymmetric` | astopt/include/ast_cfg.h:123-129 | Adding an edge keeps the two ends of all edges listing them equally often |
| `CfgBuild.CfgBuilder.LookUp` | astopt/src/ast_cfg.cpp:97-113 | The innermost block with the label; without a label the innermost that does not belong to a labelled conditional or block |
| `CfgBuild.CfgBuilder.VisitStmt` | astopt/src/ast_cfg.cpp:147-360 | For every statement modelled, the blocks and the current block are those of the specification; the three target stacks are as before |
| `CfgBuild.CfgBuilder.VisitReturn` | astopt/src/ast_cfg.cpp:147-154 | The statement is appended, the block leads to the exit and has ended |
| `CfgBuild.CfgBuilder.VisitThrow` | astopt/src/ast_cfg.cpp:508-517 | The same with the innermost throw target |
| `CfgBuild.CfgBuilder.VisitBreak` | astopt/src/ast_cfg.cpp:351-360 | The jump leads to the block its label, or the lack of one, resolves to |
| `CfgBuild.CfgBuilder.VisitContinue` | astopt/src/ast_cfg.cpp:339-348 | The same among loop headers |
| `CfgBuild.CfgBuilder.VisitChildren` | astopt/src/ast_cfg.cpp:561-562 | All statements of a list, in order |
| `CfgBuild.CfgBuilder.VisitCondBranch` | astopt/src/ast_cfg.cpp:157-204 | The blocks of a conditional as specified, stacks restored |
| `CfgBuild.CfgBuilder.VisitElse` | astopt/src/ast_cfg.cpp:186-195 | The false branch, in a block of its own that leads to the join |
| `CfgBuild.CfgBuilder.OpenLoop` | astopt/src/ast_cfg.cpp:222-247 | Header, body and exit of a loop; the exit is pushed for break and the header for continue |
| `CfgBuild.CfgBuilder.VisitTestFirst` | astopt/src/ast_cfg.cpp:261-297 | A loop that tests first, stacks restored |
| `CfgBuild.CfgBuilder.VisitWhileLoop` | astopt/src/ast_cfg.cpp:261-297 | The blocks of a while loop as specified |
| `CfgBuild.CfgBuilder.VisitForLoop` | astopt/src/ast_cfg.cpp:208-257 | The blocks of a for loop as specified: initial statements before the header, updates after the body |
| `CfgBuild.CfgBuilder.VisitDoLoop` | astopt/src/ast_cfg.cpp:300-336 | The blocks of a do loop as specified |
| `CfgBuild.CfgBuilder.VisitBlockNode` | astopt/src/ast_cfg.cpp:520-574 | The blocks of a labelled block as specified, stacks restored |
| `CfgBuild.CfgBuilder.Build` | astopt/src/ast_cfg.cpp:840-880 | The graph of one function is added after those built before, stacks empty again |
| `Cfa.AST_CFA.CollectReachableBB` | astopt/src/ast_cfa.cpp:43-79 | Collects exactly the blocks reachable from function entries, each once. They are listed breadth first from one entry after the other, successors in their order |
| `CfgOrder.OrderIsUnique` | astopt/src/ast_cfa.cpp:43-79 | The breadth-first order is the only one: always the first successor, not listed yet, of the earliest block that has one, and the next entry if none has |
| `Cfa.AST_CFA.RemoveUnreachableBB` | astopt/src/ast_cfa.cpp:82-105 | Afterwards a reachable block lists as predecessors exactly its reachable ones, as often as there are edges; nothing else changes |
| `Cfa.AST_CFA.RemoveFromSuccessors` | astopt/src/ast_cfa.cpp:89-103 | One unreachable block is taken out of the predecessors of its successors, once for every edge |
| `Dfa.PrunedIsLinked` | astopt/src/ast_cfa.cpp:82-105 | What pruning leaves is what the data flow analysis needs: predecessor lists that hold just the edges between reachable blocks |
| `Dfa.SolveRchIn` | astopt/src/ast_dfa.cpp:381-423 | The worklist ends, in whatever order it starts; bit i is on at entry to block b exactly if a path leads from a block that generates i to b through blocks that preserve i |
| `Dfa.Recompute` | astopt/src/ast_dfa.cpp:395-413 | The block's set is wiped and recomputed from all predecessors, of which it may itself be one |
| `Dfa.PathsAreLeastSolution` | astopt/src/ast_dfa.cpp:381-423 | The bits that paths justify solve the data flow equations and are contained in every solution |
| `Dfa.StepGrows` | astopt/src/ast_dfa.cpp:395-413 | Although the set is wiped first, a step never loses a bit, self-loop or not |
| `Dfa.StepWaits` | astopt/src/ast_dfa.cpp:414-421 | Whatever is not yet passed on has its block in the worklist |
| `Dfa.SentReaches` | astopt/src/ast_dfa.cpp:401-411 | A bit that a predecessor passes on is justified by a path |
| `Dfa.AllReach` | astopt/src/ast_dfa.cpp:389-423 | With nothing waiting, every bit a path justifies is on |
| `DfaHomes.MapsRight` | astopt/src/ast_dfa.cpp:486-533 | Each definition's home is found: the maps lead from it to its block, if its statement sits in one block and is the last to mention it; statements around it, such as the class of a method, may mention it before |
| `DfaDefs.LastDefReaches` | astopt/src/ast_dfa.cpp:300-379 | On any run the last definition of its name comes from a block of the run that generates it, and every later block preserves it |
| `AstDfa.AST_DFA.DataFlowAnalysis` | astopt/src/ast_dfa.cpp:69-76 | Vectors right and solution least. Sound: whatever run of a function leads to a block, the last node that can change a variable in it, or the parameter that bound it, has its bit on there, under the name of the variable and the id of the identifier written, if targets are variables or fields of variables; also if a class or function expression around a function mentions what belongs to it. Exact: a bit is on at entry to a block exactly if some path brings its definition there and no block between redefines the name |
| `DfaEffects.DefIsChange` | astopt/src/ast_dfa.cpp:146-231 | What nodes do to an environment of variables and fields, told without DefOf: the name that a node is taken to define is the one name it can change the value of, exactly if its target is a variable or a field of a variable, for ++ and -- a variable; and then the id recorded is that of the identifier written |
| `DfaEffects.DeepTargets` | astopt/src/ast_dfa.cpp:163-207 | x.f++ and a.b.c = 1 change x and a, and are taken to define nothing |
| `DfaEffects.LastChangeIsLastDef` | astopt/src/ast_dfa.cpp:295-423 | In a list of events the last one that can change a variable is the last definition of its name |
| `DfaEffects.ValueStays` | astopt/src/ast_dfa.cpp:295-423 | Where no event can change a variable, it keeps its value, whatever the others compute |
| `AstDfa.ChangesAreSound` | astopt/src/ast_dfa.cpp:295-423 | Soundness for the last definition of a name is soundness for the last change of its variable |
| `DfaExact.ReachesIs` | astopt/src/ast_dfa.cpp:300-379 | A path through preserving blocks from a generating one is a path from the block that makes the definition, past no block that redefines its name |
| `AstDfa.BitsAreExact` | astopt/src/ast_dfa.cpp:381-423 | So each bit of the solution is on exactly where such a path brings it, and there are no bits beyond the positions |
| `DfaExamples.ClassWithMethod` | astopt/src/ast_cfg.cpp:131-134 | A concrete class with a method meets what the analysis requires, although the class, a statement of the module, mentions the method's parameter and variable |
| `AstDfa.RunsAreSound` | astopt/src/ast_dfa.cpp:295-423 | That soundness, from right vectors and a solution that paths justify |
| `AstDfa.VectorsAre` | astopt/src/ast_dfa.cpp:300-379 | Once every block and entry is done, the gen and preserve vectors are right for all blocks |
| `AstDfa.AST_DFA.CollectInfo` | astopt/src/ast_dfa.cpp:486-533 | Which statement each node is in, which block each statement is in, and which function each entry block belongs to |
| `AstDfa.AST_DFA.SetNodeIds` | astopt/src/ast_dfa.cpp:501-507 | A function's parameters map to the function, others stay |
| `AstDfa.AST_DFA.VisitIdentifiers` | astopt/src/ast_dfa.cpp:535-539 | Every identifier inside a statement maps to it, others stay |
| `AstDfa.AST_DFA.AddDef` | astopt/src/ast_dfa.cpp:146-231 | What a node defines, if anything, gets the next bit; with the dummy block only the name is reported. The name is the one the node can change, exactly if its target is not too deep, and the id is that of the identifier written |
| `AstDfa.AST_DFA.GetDefStrIdx` | astopt/src/ast_dfa.cpp:137-142 | The name a node defines, 0 if none, with nothing recorded: the one name it can change, exactly if its target is not too deep |
| `AstDfa.AST_DFA.CollectDefNodes` | astopt/src/ast_dfa.cpp:234-293 | Every definition of every reachable block and every parameter has a bit, and nothing else has; every parameter belongs to its function afterwards, whatever it belonged to before. Positions are in the order of functions: parameters, then the definitions of the blocks the function is first to reach, breadth first |
| `AstDfa.AST_DFA.CollectParams` | astopt/src/ast_dfa.cpp:245-260 | The same for one function |
| `AstDfa.AST_DFA.CollectFrom` | astopt/src/ast_dfa.cpp:262-289 | The same for the blocks of one function, each collected once, breadth first |
| `AstDfa.AST_DFA.BuildVectors` | astopt/src/ast_dfa.cpp:300-379 | Gen and preserve vectors of all reachable blocks, as specified |
| `AstDfa.AST_DFA.StatementVectors` | astopt/src/ast_dfa.cpp:351-375 | What one statement adds to the vectors of its block |
| `AstDfa.AST_DFA.SetGenBits` | astopt/src/ast_dfa.cpp:364-373 | The bits of the definitions of a statement are turned on, and no other |
| `AstDfa.AST_DFA.ClearPrsvBits` | astopt/src/ast_dfa.cpp:355-362 | All bits of the defined name are turned off, and no other |
| `AstDfa.AST_DFA.EntryVectors` | astopt/src/ast_dfa.cpp:329-349 | An entry block generates its function's parameters |
| `AstDfa.AST_DFA.BuildBitVectors` | astopt/src/ast_dfa.cpp:295-423 | Vectors right and solution least |
| `Leb128.DecodeEncode` | scripts/maplefe-autogen.py:1287-1302 | Decoding a written 64-bit number gives it back and stops right behind it, whatever follows |
| `Leb128.DecodeEncodeFrom` | scripts/maplefe-autogen.py:1292-1301 | The reading loop from any shift on, with 64-bit wrap-around |
| `Leb128.PrefixFree` | scripts/maplefe-autogen.py:1081-1089 | No coding starts with another |
| `Leb128.Shortest` | scripts/maplefe-autogen.py:1084-1088 | The least number of 7-bit groups that hold the signed value (section 7.6 of DWARF Version 5) |
| `Leb128.AtMostTen` | scripts/maplefe-autogen.py:1081-1089 | At most ten bytes for 64 bits |
| `Leb128.EncodeIs` | scripts/maplefe-autogen.py:1081-1089 | The low seven bits of the bytes, lowest first, are the number in two's complement, and bit 7 is on in all bytes but the last |
| `Leb128.Examples` | scripts/maplefe-autogen.py:1081-1089 | The examples of table 7.8 of DWARF Version 5, byte for byte |
| `AstReading.CastBack` | scripts/maplefe-autogen.py:1171-1178 | A value widened to 64 bits and cast back to its type is itself |
| `AstReading.InternKeeps` | scripts/maplefe-autogen.py:1333-1341 | Interning never moves strings already in the pool, and the index given holds the string |
| `AstRoundTrip.ItemBack` | scripts/maplefe-autogen.py:1166-1186 | A field's value read back is the one written, with node ids and string indices renumbered |
| `AstRoundTrip.FieldsBack` | scripts/maplefe-autogen.py:1198-1211 | So is a list of fields, lists with their lengths |
| `AstRoundTrip.BodyBack` | scripts/maplefe-autogen.py:1304-1308 | A node body fills its node and leaves the rest of the buffer alone |
| `AstRoundTrip.BodiesBack` | scripts/maplefe-autogen.py:1271-1272 | All bodies, in the order of the node table |
| `AstRoundTrip.NodesBack` | scripts/maplefe-autogen.py:1266-1268 | The node table gives blank nodes of the stored kinds, and the map from old ids to them |
| `AstRoundTrip.StringsBack` | scripts/maplefe-autogen.py:1333-1341 | The string table maps each old index to one that holds the same string |
| `AstModules.LoadUndoesStore` | scripts/maplefe-autogen.py:1252-1276 | Whatever follows it, a stored module loads to an isomorphic one: same root, kinds, values, nulls, lengths, strings, and children wherever they were |
| `AstModules.SharingIsKept` | scripts/maplefe-autogen.py:1310-1313 | Two references load to one node exactly if they were to one node, and two names to one index exactly if they were one string |
| `AstModules.ParentKept` | shared/include/ast.h:58 | Since setters write the parent pointer, a node keeps its parent exactly if the last node that adopts it, from its own body on, is that parent |
| `AstModules.ParentIs` | shared/include/ast.h:58 | The parent pointer after any number of bodies, told by the last adopter |
| `AstModules.ModulesLoadInTurn` | scripts/maplefe-autogen.py:1252-1276 | Consecutive modules in one buffer load one by one, and then the buffer is at its end |
| `AstStores.AstStore.WriteNum` | scripts/maplefe-autogen.py:1081-1089 | The tag, unless it is 'A' or 'V', and the coding are appended to the current buffer |
| `AstStores.AstStore.WriteNode` | scripts/maplefe-autogen.py:1091-1099 | Kind and id go to the node table, the base fields to the node buffer |
| `AstStores.AstStore.WriteAddress` | scripts/maplefe-autogen.py:1101-1106 | The node's id, or -1 for null, is appended |
| `AstStores.AstStore.WriteString` | scripts/maplefe-autogen.py:1116-1124 | Length and characters with the closing null are appended, 0 for a null pointer |
| `AstStores.AstStore.AddStrIdx` | scripts/maplefe-autogen.py:1134-1137 | The index joins the set unless it is 0 |
| `AstStores.AstStore.WriteItem` | scripts/maplefe-autogen.py:967-987 | A value's coding is appended by its type, and the string indices in it are noted |
| `AstStores.AstStore.WriteField` | scripts/maplefe-autogen.py:1001-1011 | A field or a whole list |
| `AstStores.AstStore.StoreTreeNode` | scripts/maplefe-autogen.py:998-1012 | The table entry and the body of one node, and its string indices |
| `AstStores.AstStore.VisitTreeNode` | scripts/maplefe-autogen.py:1064-1069 | Left-to-right preorder, each node stored once: a new node is stored next, then what its children lead to; the stored order stays the preorder, and all that was stored in the visit has its children stored |
| `AstStores.AstStore.VisitChildren` | scripts/maplefe-autogen.py:239-242 | Children from left to right: always the first child not stored yet comes next |
| `AstStores.AstStore.WriteStrIdxTable` | scripts/maplefe-autogen.py:1126-1132 | Exactly the noted strings, in ascending order of index |
| `AstStores.AstStore.StoreInAstBuf` | scripts/maplefe-autogen.py:1048-1062 | The buffer is the module's layout: signature, node table, string table, node bodies. The order is the left-to-right preorder from the root: after it, always the first child, from left to right, not stored yet of the latest node that has one; and at the end no stored node has a child that is not stored |
| `AstOrder.PreorderIsUnique` | scripts/maplefe-autogen.py:1064-1069 | That fixes the order: two preorders of one length are the same |
| `AstOrder.KidIsNext` | scripts/maplefe-autogen.py:648-665 | While the children of a node are visited from left to right, the next one not stored is the next of the preorder |
| `AstExamples.StoredBytes` | scripts/maplefe-autogen.py:1048-1062 | A concrete module byte for byte, with a list, a missing child, two strings and a field of every type |
| `AstLoads.AstLoad.ReadNum` | scripts/maplefe-autogen.py:1287-1302 | The number behind the tag, or a failed assertion, and how far the buffer was read |
| `AstLoads.AstLoad.ReadGroups` | scripts/maplefe-autogen.py:1292-1301 | The bytes up to the first below 0x80 give the number that the decoder is specified to give |
| `AstLoads.AstLoad.ReadAddress` | scripts/maplefe-autogen.py:1310-1313 | Null for -1 and for ids without a node |
| `AstLoads.AstLoad.ReadString` | scripts/maplefe-autogen.py:1323-1331 | The pool's copy of the string up to the null character, then on by the length read |
| `AstLoads.AstLoad.ReadStrIdxTable` | scripts/maplefe-autogen.py:1333-1341 | The string map and the grown pool |
| `AstLoads.AstLoad.CreateNode` | scripts/maplefe-autogen.py:1278-1284 | A blank node of the kind, and its id in the map |
| `AstLoads.AstLoad.LoadItem` | scripts/maplefe-autogen.py:1166-1186 | A value by its type, renumbered |
| `AstLoads.AstLoad.LoadField` | scripts/maplefe-autogen.py:1198-1211 | A field or a whole list |
| `AstLoads.AstLoad.LoadTreeNode` | scripts/maplefe-autogen.py:1304-1308 | One body fills its node and adopts its children |
| `AstLoads.AstLoad.ReadNodeTable` | scripts/maplefe-autogen.py:1266-1268 | Blank nodes up to the string table |
| `AstLoads.AstLoad.ReadNodeBodies` | scripts/maplefe-autogen.py:1271-1272 | All bodies in turn |
| `AstLoads.AstLoad.Next` | scripts/maplefe-autogen.py:1252-1276 | The next module, the end of the buffer, or a failure; afterwards the buffer stands behind the module and the maps are clear. If a module was loaded, the bytes read are magic, signature of the schema, an entry for each node, the string table and a body for each node with the fields of its kind, with all tags, counts and lengths |
| `AstFormat.LoadedHasForm` | scripts/maplefe-autogen.py:1252-1276 | Whatever loads has that form, stored by this program or not: a buffer with another tag, another signature or another number of bodies than entries does not load |
| `Literals.EncodeLiteral` | scripts/maplefe-autogen.py:505-533 | The loop gives the string's escaping |
| `Literals.EscapingKeepsMeaning` | scripts/maplefe-autogen.py:505-533 | Escaping keeps what the literal denotes, by the escapes of section 12.8.4 of ECMA-262, exactly if no control character stands right after a backslash |
| `Literals.EncodedDenotes` | scripts/maplefe-autogen.py:505-533 | Each such control character makes the output denote one symbol more |
| `Literals.EncodedIsQuotable` | scripts/maplefe-autogen.py:505-533 | Between double quotes the output ends where it should; no character from U+0008 to U+000D is left and no single quote is escaped |
| `Literals.EncodedIsFixed` | scripts/maplefe-autogen.py:505-533 | Escaping twice is escaping once |
| `Literals.SameMeaningSameOutput` | scripts/maplefe-autogen.py:505-533 | However a string is written, with escapes or without, the output for it is the same |
| `OperatorRoundTrip.PrintThenParse` | ast2cpp/src/emitter.cpp:606-680 | For every tree of unary, binary and ternary operators, the tokens emitted parse back to that tree, at its root's level, in the grammar whose levels and associativity are the operator table |
| `OperatorRoundTrip.PrintThenParseEcma` | ast2cpp/src/emitter.cpp:606-680 | The parser with the rules of ECMA-262 reads the tree back exactly if no expression that begins with a sign, ~ or ! is the base of **, and ?? is not mixed with \|\| or &&; otherwise the tokens are no expression |
| `EcmaRoundTrip.PrintThenRead` | ast2cpp/src/emitter.cpp:606-680 | The same by the productions of sections 13.2 and 13.4 to 13.15 of ECMA-262, 12th edition, each of which names its operators and operand kinds without the table: the tokens are an assignment expression exactly if the tree is legal, and then of that tree and no other |
| `EcmaRoundTrip.ReadIsParsed` | ast2cpp/src/emitter.cpp:2287-2397 | Whatever the productions read, the parser reads in the same way, so no tokens are two expressions |
| `EcmaRoundTrip.IsRead` | ast2cpp/src/emitter.cpp:606-680 | A legal tree with its parentheses is a phrase of every kind its level admits |
| `EcmaRoundTrip.PhraseIs` | ast2cpp/src/emitter.cpp:606-680 | A phrase is what some legal tree with its parentheses is written as |
| `EcmaRoundTrip.OperatorOf` | ast2cpp/src/emitter.cpp:2287-2397 | The table and the productions agree operator by operator: text, and level in the order of the productions |
| `EcmaRoundTrip.KindHas` | ast2cpp/src/emitter.cpp:2287-2397 | Every infix operator of the table is in the production of its kind |
| `OperatorRoundTrip.PrintIsInjective` | ast2cpp/src/emitter.cpp:606-680 | Trees that print alike are alike but for written parentheses |
| `OperatorRoundTrip.FullFits` | ast2cpp/src/emitter.cpp:606-680 | With the parentheses that are printed, no operand needs more in either grammar |
| `OperatorRoundTrip.FullLegal` | ast2cpp/src/emitter.cpp:606-680 | They are never put around what ECMA-262 refuses |
| `OperatorRoundTrip.NegatedBase` | ast2cpp/src/emitter.cpp:614-626 | (-x) ** y loses its parentheses: a concrete tree whose text ECMA-262 rejects |
| `OperatorRoundTrip.UpdatedBase` | ast2cpp/src/emitter.cpp:614-626 | ++x ** y and --x ** y need no parentheses: they parse back in both grammars |
| `OperatorRoundTrip.ExprBack` | ast2cpp/src/emitter.cpp:606-680 | The induction behind it: an expression read at any level it reaches, in front of any text |
| `OperatorRoundTrip.TightBack` | ast2cpp/src/emitter.cpp:614-626 | An operand of a unary operator, bare or in parentheses |
| `OperatorRoundTrip.UnaryBack` | ast2cpp/src/emitter.cpp:606-628 | Prefix and postfix operators |
| `OperatorRoundTrip.BinBack` | ast2cpp/src/emitter.cpp:630-654 | Binary operators of either associativity |
| `OperatorRoundTrip.TerBack` | ast2cpp/src/emitter.cpp:656-680 | The conditional operator, whose middle operand is never put in parentheses |
| `Operators.UnaryLevels` | ast2cpp/src/emitter.cpp:2287-2397 | Prefix operators bind at 17 from the right, postfix ones at 18 |
| `Operators.InfixKinds` | ast2cpp/src/emitter.cpp:2287-2397 | Which levels are assignment, exponentiation, coalescing and the logical operators |
| `OperatorParser.UnaryTexts` | ast2cpp/src/emitter.cpp:2287-2397 | In prefix and in postfix position the text names the operator |
| `OperatorParser.InfixTexts` | ast2cpp/src/emitter.cpp:2287-2397 | So it does in infix position, where it can be no postfix operator |
| `Emitters.Emitter.Emit` | ast2cpp/src/emitter.cpp:606-680 | What is emitted parses back to the expression, and mPrecedence is the level it parses at. By the productions of ECMA-262 it is that expression and no other, or no expression if the tree is not legal |
| `Emitters.Emitter.EmitTreeNode` | ast2cpp/src/emitter.cpp:853-862 | Atoms and parentheses: the text and the level left in mPrecedence |
| `Emitters.Emitter.EmitUnaOperatorNode` | ast2cpp/src/emitter.cpp:606-628 | The text of the printer specified, and mPrecedence the root's level |
| `Emitters.Emitter.EmitBinOperatorNode` | ast2cpp/src/emitter.cpp:630-654 | The same, with the operand's level read from mPrecedence right after it is printed |
| `Emitters.Emitter.EmitTerOperatorNode` | ast2cpp/src/emitter.cpp:656-680 | The same for the conditional operator |
| `RenameVars.RenameVarVisitor.RenameVar` | astopt/src/ast_scp.cpp:579-626 | Every identifier stands for the declaration it stood for exactly if each declaration node whose name is overwritten through another identifier is a repeated one, no renamed identifier stood for a function, class or import, and every identifier gets the version of what it stands for. A condition on the program and its lists, whatever the order of names, tells in advance when that is so. Variables of different scopes end with different names. An identifier whose innermost listed scope is at place k > 0 of its name's list ends as its name, two underscores, v and the numeral of k, any other with its old name; declaration nodes alike |
| `RenameVars.RenameVarVisitor.InsertToStridx2DeclIdMap` | astopt/src/ast_scp.cpp:664-683 | The declaration goes before the first one in a scope inside its own; no scope twice |
| `RenameVars.RenameVarVisitor.VisitDeclaring` | astopt/src/ast_scp.cpp:686-701 | The first pass lists identifiers that declare variables or parameters |
| `RenameVars.RenameVarVisitor.VisitRenaming` | astopt/src/ast_scp.cpp:702-720 | The second pass renames identifiers with the old name, and the declaration node above them |
| `RenameVars.RenameVarVisitor.VisitScope` | astopt/src/ast_scp.cpp:610-622 | All identifiers in the scope's subtree |
| `RenameVars.RenameVarVisitor.WorkOff` | astopt/src/ast_scp.cpp:588-624 | A name's list from its end down to the second entry; every identifier of the name ends with the numeral of its innermost listed scope's place |
| `RenameVars.RenameVarVisitor.CollectLists` | astopt/src/ast_scp.cpp:581-584 | The lists of all names, after one visit of all identifiers |
| `RenameExamples.InitialValueClobbers` | astopt/src/ast_scp.cpp:714-718 | A concrete program that may be given to the pass, in which renaming an initial value overwrites the name of another variable's declaration node, in every order |
| `RenameExamples.FunctionIsLost` | astopt/src/ast_scp.cpp:709-717 | A concrete program that may be given to the pass, in which a use of a function comes to stand for the variable around it |
| `RenameExamples.DeclaredTwice` | astopt/src/ast_scp.cpp:672-675 | A variable declared twice in one scope may be given to the pass, and nothing is lost |
| `RenameExamples.HoistedVariable` | astopt/src/ast_scp.cpp:372-390 | So may a variable declared with var in an inner block, whose initial value belongs to the block |
| `RenameExamples.HoistedItself` | astopt/src/ast_scp.cpp:694-699 | A concrete program that may be given to the pass, in which such a variable has its own name as initial value: the block is listed as declaring the name, and a use of the variable after the block is lost |
| `Bindings.KeptInAnyOrder` | astopt/src/ast_scp.cpp:587-624 | All orders of the names keep all bindings exactly if every declaration with a renamed initial value of another name is a repeated one, its scope having declared both names before it or the initial value being declared further in, no renamed identifier stands for a function, class or import, and every identifier gets the version of what it stands for |
| `Bindings.BindingIsKept` | astopt/src/ast_scp.cpp:579-626 | The exact condition for one order |
| `Bindings.VariablesApart` | astopt/src/ast_scp.cpp:579-626 | Variables and parameters of different scopes end with different names, hoisted ones as well |
| `Bindings.NamesAfter` | astopt/src/ast_scp.cpp:586-625 | The name every identifier and declaration node ends with |
| `Bindings.DeclKept` | astopt/src/ast_scp.cpp:714-718 | A declaration node ends with its variable's name exactly if it is not overwritten; else it ends with the name of the initial value |
| `Bindings.SameVersion` | astopt/src/ast_scp.cpp:602-623 | An identifier and the variable or parameter it stands for get the same version, unless some hoisted variable has its own name as initial value |
| `Bindings.StrayIsLost` | astopt/src/ast_scp.cpp:694-699 | An identifier that gets another version than what it stands for has lost it |
| `Bindings.IdentKept` | astopt/src/ast_scp.cpp:702-720 | An identifier keeps what it stands for under those conditions |
| `Bindings.OtherIsLost` | astopt/src/ast_scp.cpp:709-717 | An identifier that stood for a function, class or import and is renamed has lost it |
| `Bindings.ClobberedIsLost` | astopt/src/ast_scp.cpp:714-718 | An overwritten declaration node that is no repeated one costs some identifier its declaration |
| `Bindings.VariableIsLost` | astopt/src/ast_scp.cpp:714-718 | Its own variable, if the scope has not declared that name before |
| `Bindings.InitialValueIsLost` | astopt/src/ast_scp.cpp:714-718 | Or an initial value, if its name is not declared before in the scope nor further in |
| `Renaming.InsertKeepsOrder` | astopt/src/ast_scp.cpp:664-683 | Lists stay free of repeated scopes and never place an outer scope after an inner one |
| `Renaming.CollectIsRight` | astopt/src/ast_scp.cpp:581-584 | After the first pass a list holds one declaration for each scope that declares the name |
| `Renaming.RenameDownIs` | astopt/src/ast_scp.cpp:602-623 | Working inner to outer, each identifier gets the version of the innermost listed scope around the place it stands at |
| `Renaming.NewNameIs` | astopt/src/ast_scp.cpp:602-623 | That version in digits: the name, two underscores, v and the numeral of the place, the name itself at place 0 or without such a scope |
| `Renaming.InsertPlaces` | astopt/src/ast_scp.cpp:664-683 | Where a declaration goes in its list, and that the others stay in place |
| `Scopes.FindDeclIs` | shared/src/ast_scope.cpp:34-53 | The search finds the entry of the innermost scope that has one, and fails only if none around has |
| `VersionNames.VersionIsInjective` | astopt/src/ast_scp.cpp:607-611 | Version names tell name and number |
| `VersionNames.VersionIsNew` | astopt/src/ast_scp.cpp:607-611 | A version differs from the name it is made from |
| `VersionNames.VersionReads` | astopt/src/ast_scp.cpp:607-611 | A version is the old name, two underscores, v, and digits without leading zeros whose decimal value is the number |
| `LaDetect.LADetector.Detect` | ladetect/la_detect.cpp:405-429 | Every recorded lookahead can begin some derivation of its rule. Unless the run gets stuck, every rule the walk can come to is done, and each done rule has what its elements have, except for elements copied from a finished rule that still waited; such rules are on a left cycle. A rule has all that can begin it, strings up to their length, if there is no left recursion, and then the run does not get stuck, or if no rule on a left cycle derives the empty string and, of two rules that come to each other by left edges, at most one is a top rule or mentioned in other rules at several places. All lists are a function of the grammar and the top rules |
| `LaExamples.LookAheadIsMissed` | ladetect/la_detect.cpp:405-429 | The run on a concrete grammar: a rule that copies from a finished, waiting rule does not get what the patch hands over, and misses a lookahead it can begin with |
| `LaExamples.SelfCopyHangs` | ladetect/la_detect.cpp:405-429 | The run on a concrete rule that has a string and itself as elements gets stuck: its list is copied to itself for ever |
| `LaExamples.ExprIsTame` | ladetect/la_detect.cpp:405-429 | A left-recursive grammar of sums meets the conditions for complete lists |
| `LaOnce.NoneMissed` | ladetect/la_detect.cpp:310-313 | Under these conditions an element that has not been looked into never leads to a finished rule that waits |
| `LaOnce.RootsOnly` | ladetect/la_detect.cpp:230-240 | No rule waits for one that is no top rule and mentioned at one place only: it would be the root of the tree, put off by that mention and met through it as well |
| `LaDetect.LADetector.DetectFront` | ladetect/la_detect.cpp:409-428 | One round of the main loop keeps this, and finishes a rule or shortens ToDo |
| `LaDetect.LADetector.DetectRuleTable` | ladetect/la_detect.cpp:214-299 | One call leaves InProcess as it was and the invariants in force. The rule was in process, and the caller's rule waits for it now, or it is done, and MaybeZero exactly if the result is; what it waits for, the caller's rule waits for, if it was walked just now. Lists, tree and result are those of the walk as a function |
| `LaDetect.LADetector.DetectNewRule` | ladetect/la_detect.cpp:243-298 | The same for a rule met first, which is pushed, looked into, popped and done |
| `LaDetect.LADetector.LookInto` | ladetect/la_detect.cpp:247-279 | Identifiers and literals list themselves; any other rule gets a node, and its elements are looked into |
| `LaDetect.LADetector.DetectOneof` | ladetect/la_detect.cpp:342-352 | All elements are looked into; MaybeZero only if an element is, and not MaybeZero only if each was met in process or is done and not MaybeZero |
| `LaDetect.LADetector.DetectZeroorXXX` | ladetect/la_detect.cpp:355-361 | The element is looked into, the result is MaybeZero |
| `LaDetect.LADetector.DetectData` | ladetect/la_detect.cpp:363-370 | The element's result, for the same reason |
| `LaDetect.LADetector.DetectConcatenate` | ladetect/la_detect.cpp:375-401 | Elements are looked into up to the first that is not MaybeZero, the rules after it are known |
| `LaDetect.LADetector.DetectOneDataEntry` | ladetect/la_detect.cpp:305-334 | Afterwards the element counts as looked into: its lookaheads are the rule's, or the rule waits for them, or the miss is on record |
| `LaDetect.LADetector.DetectChild` | ladetect/la_detect.cpp:310-313 | The same for an element that is a rule |
| `LaDetect.LADetector.AddData` | ladetect/la_detect.cpp:314-328 | The same for a string, character or token |
| `LaDetect.LADetector.AddRuleLookAhead` | ladetect/la_detect.cpp:184-195 | The lookahead joins the rule's list unless it is found there |
| `LaDetect.LADetector.CopyRuleLookAhead` | ladetect/la_detect.cpp:198-209 | Every lookahead of the one rule is found at the other afterwards, nothing else is added, other lists stay; a list copied to itself never ends exactly if it holds a lookahead that is not found in it |
| `LaDetect.LADetector.AddPending` | ladetect/la_detect.cpp:151-163 | The dependent waits for the pending rule, and nobody else waits for anything new |
| `LaDetect.LADetector.AddDependents` | ladetect/la_detect.cpp:230-240 | After a back edge all rules between its ends wait for the target; those that wait always have the rule they wait for above them in the tree, and all rules between wait as well |
| `LaDetect.LADetector.GetPending` | ladetect/la_detect.cpp:139-147 | The entry of the rule; without one, no entry has it |
| `LaDetect.LADetector.PatchPending` | ladetect/la_detect.cpp:459-467 | All that wait for the rule get its lookaheads and nobody gets anything else; the assertion that it has a list fails exactly if it has none |
| `LaDetect.LADetector.BackPatch` | ladetect/la_detect.cpp:434-456 | All nodes are visited, and afterwards every element looked into has given its lookaheads, but for recorded misses |
| `LaDetect.LADetector.AddToDoFrom` | ladetect/la_detect.cpp:121-129 | Every rule among the elements from the start index on is known afterwards, and these elements are put off for good |
| `LaDetect.Finish` | ladetect/la_detect.cpp:409-428 | With nothing left to do, everything the walk can come to is done |
| `LaDetect.MetCycle` | ladetect/la_detect.cpp:224-240 | A rule met in process is on a left cycle |
| `LaComplete.ListsAreComplete` | ladetect/la_detect.cpp:305-401 | At the end each element that counts has given its lookaheads: in a concatenation those whose predecessors are all MaybeZero and were not met in process |
| `LaComplete.NullableIsKnown` | ladetect/la_detect.cpp:342-401 | If rules met in process do not derive the empty string, any other rule that does is MaybeZero |
| `LaComplete.BeginsIsListed` | ladetect/la_detect.cpp:305-401 | Whatever begins a derivation is listed, by induction on the derivation |
| `LaComplete.BeginningsAreListed` | ladetect/la_detect.cpp:405-429 | If nothing is missed and no rule on a left cycle derives the empty string, the lists are complete, up to the length of strings |
| `LaPatch.PatchStep` | ladetect/la_detect.cpp:431-456 | Going down from the root, patching a rule undoes no patch made before: all that was handed over stays handed over |
| `LaPatch.HandedOn` | ladetect/la_detect.cpp:459-467 | What one patch adds to a rule it adds to every rule above that copied from it |
| `LaPatch.PatchedBefore` | ladetect/la_detect.cpp:431-433 | A rule that waits is patched after the rule it waits for |
| `LaPatch.AllGiven` | ladetect/la_detect.cpp:434-456 | With all nodes patched, every element looked into has given its lookaheads |
| `LaFlow.MoreWait` | ladetect/la_detect.cpp:149-163 | Rules in process may wait for more; nothing handed over before is lost |
| `LaFlow.ListGrown` | ladetect/la_detect.cpp:184-209 | The list of a rule in process may grow |
| `LaFlow.PoppedFlow` | ladetect/la_detect.cpp:281-296 | Finishing a rule keeps what its elements are owed, and why it is MaybeZero or not |
| `LaFlow.FollowsUp` | ladetect/la_detect.cpp:227-240 | What a rule waits for, the rule above its node waits for, unless it is that rule |
| `LaFlow.WaitsCycle` | ladetect/la_detect.cpp:431-433 | A rule that waits is on a left cycle |
| `LaStates.PushKeepsInv` | ladetect/la_detect.cpp:224-245 | Pushing a rule keeps the invariant: InProcess is a chain of left edges without repeats, disjoint from Done |
| `LaStates.PopKeepsInv` | ladetect/la_detect.cpp:281-296 | So does finishing the top rule |
| `LaStates.BackEdge` | ladetect/la_detect.cpp:225-240 | Every rule from the target of a back edge down to its source reaches the target by left edges |
| `LaStates.StringsGoWrong` | shared/src/ruletable_util.cpp:232-249 | Strings compare as equal when they differ: a string is added twice, and dropped if another of its length is there |
| `LookAheads.BeginsFromElement` | ladetect/la_detect.cpp:375-401 | What begins a tree for an element, with empty trees before it, begins a derivation of the rule |
| `LookAheads.BeginsWithData` | ladetect/la_detect.cpp:314-328 | A string, character or token in a left position begins one |
| `LookAheads.BeginsOnEdge` | ladetect/la_detect.cpp:310-313 | Lookaheads travel against a left edge |
| `LookAheads.BeginsOnPath` | ladetect/la_detect.cpp:459-467 | And against a chain of them |

## Left out

- Everything on the heap is modelled by value where objects do not share: recursions, rule maps,
  groups, basic blocks, definition nodes and pending entries are records in sequences of the class that
  owns them, named by their index. Aliasing between such objects, memory pools and destructors are not part of the model.
- Tracing, dumping, writing of generated files and main functions.
- Left recursion: `HandleIsDoneRuleTable`, which nothing calls.
- Control flow: switch, try and finally, so that all breaks leave loops or labelled statements; namespaces,
  yield; predicates, attributes and auxiliary nodes of blocks. Functions are built one at a time; the queue of
  nested functions is not part of the model.
- CfgContinue.GraphMeansBody: after a jump in the same list there is no conditional and no block with a label or
  lexical declarations, which open the ended block again (CfgExamples.DeadCodeRuns shows what goes wrong); loops
  and other statements there are allowed and do nothing.
- CfgContinue.MeaningIsKept: do loops have a condition, which is no statement of their body, so that a trace can
  tell whether it was tested.
- Definitions: `BuildDefUseChain`, and the sets of defined names and nodes it alone uses. Whether a block
  is an entry is told from the map of entry blocks, without the block's attribute.
- AstDfa.AST_DFA.DataFlowAnalysis: a defining statement sits in one block, its defining node is one of its identifiers
  and no parameter, and no later statement mentions that node; block ids are below 0xffffffff. Soundness for changes of
  variables takes targets that are variables or fields of variables, for `++` and `--` variables; for other targets,
  which are taken to define nothing or another name, it is stated for definitions only. Calls, aliases and writes
  through nested functions change nothing; values are 32-bit numbers.
- Storing: enumerations are 32-bit numbers; fields of scope type are skipped by the code; setters have no
  effect beyond the field and the parent pointer; the string pool is a sequence without repeats, so the two
  ways in which the empty string is stored are one.
- AstStores.AstStore.StoreInAstBuf: the first call on an object, because the visitor's set of visited nodes is not cleared.
- AstLoads.AstLoad.Next: a malformed buffer fails where the code asserts or reads past its end; what undefined behaviour would do is not part of the model.
- Printing: tokens, not characters and spaces; missing operands, as-types, annotations and all other kinds of nodes.
- EcmaRoundTrip.PrintThenRead: targets of assignments, increments and decrements are atoms, in parentheses or not;
  member accesses and calls are atoms, and `in`, `instanceof`, `delete`, `typeof`, `void`, `await`, `&&=` and `||=`,
  which the table does not have, are left out of the productions.
- RenameVars.RenameVarVisitor.RenameVar: no `var` is hoisted out of a scope that declares its name itself, which
  is an early error by section 14.2.1 of ECMA-262; version names occur nowhere before; at the start a declaration
  node has the name of its variable; the cached map from nodes to declarations is not used.
- Lookaheads: type elements, which the code asserts never to meet. A failing assertion and a list copied
  to itself for ever are one state, `mHung`, in which soundness still holds.
- LaDetect.LADetector.Detect: in grammars that do not meet the conditions for complete lists, completeness is
  stated element by element and not for whole derivations, because the code then can miss lookaheads; which
  ones is on record in `mMissed` and `mMet`.
- RecExact.FailIsRight: the proviso on the grammar is sufficient for all orders of the walk; RecExamples.JudgedRight
  shows an order in which a grammar that does not meet it is judged right.
- Type inference, the order of modules in `SortHandler`, C++ and MapleIR emission, line buffers.
