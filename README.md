# WALA common-AST traversal and small analysis values, in Dafny

This project models the traversal engine of WALA's common AST (CAst), the
class `CAstVisitor`, together with five small value classes from the same
code base:

- the logic term `FunctionTerm`;
- the SSA instruction `AstLexicalWrite`;
- the dataflow cell `BooleanVariable`;
- the pointer key `ReflectedFieldPointerKey`;
- the source range `AbstractSourcePosition`.

**The walker.** `CAstVisitor` walks entities and AST nodes and calls
overridable hooks as it goes.
- Entities are files, types, fields, functions and scripts.
- Hooks are methods such as `enterEntity`, `visitCall`, `leaveIfStmtCondition`
  and `visitArrayRefAssign`. A `visit*` hook that returns true cuts the walk
  of that element short.
- The `make*Context` hooks derive the context handed down to children.
- A side table, `entityParents`, records each scoped entity's parent.

**How the walker is modelled.**
- Every hook call is an `Event` appended to a trace.
- The answers and derived contexts come from a `Hooks` oracle, which stands
  for the overriding subclass.
- Each node kind's branch of `visit` is a fixed list of steps, its `Plan`:
  visit hook, children, intermediate hooks, leave hook.
- The meaning of a walk is given by pure functions in `CAstWalk`.
- The class `CAstVisitor.Walker` holds the trace and the parent map as
  fields. Its recursive methods and loops are proved to compute exactly those
  functions.
- The properties of the walk are proved once, about the functions, and so
  hold for the methods:
  - child order per kind;
  - short-circuiting;
  - which context each child sees;
  - monotone growth of the trace and the parent table;
  - fatal failures;
  - that a well-formed tree never fails;
  - that, with the base class's hooks, a completed walk enters nodes and
    entities in exactly the order of `CAstPreOrder`'s pre-order flattening,
    which is defined on the tree alone, without hooks, state or step lists.

**The value classes.** These are datatypes with Java's `equals`, `hashCode`,
`compareTo` and `toString` written out. Java's 32-bit `int` arithmetic is
modelled explicitly as `JavaText.Wrap`. `Integer.toString` is modelled as
`JavaText.DecimalText`, with its round trip proved. `BooleanVariable` is a
class with a mutable field.

## Model

| member | source | states |
|---|---|---|
| CAstVisitor.Walker.constructor | com.ibm.wala.cast/source/java/com/ibm/wala/cast/tree/visit/CAstVisitor.java:71 | a new walker has an empty parent table and has fired no hook |
| CAstVisitor.Walker.GetParent | com.ibm.wala.cast/source/java/com/ibm/wala/cast/tree/visit/CAstVisitor.java:78-80 | the result is present exactly when the entity has a recorded parent, and it is that parent |
| CAstVisitor.Walker.SetParent | com.ibm.wala.cast/source/java/com/ibm/wala/cast/tree/visit/CAstVisitor.java:87-89 | a plain map put; afterwards `GetParent(entity)` is the new parent, every other entity's parent is unchanged, and no hook fires |
| CAstVisitor.Walker.VisitEntities | com.ibm.wala.cast/source/java/com/ibm/wala/cast/tree/visit/CAstVisitor.java:127-187 | the new trace, parent table and outcome are those of `CAstWalk.WalkEntity` on the old state |
| CAstVisitor.Walker.VisitContainer | com.ibm.wala.cast/source/java/com/ibm/wala/cast/tree/visit/CAstVisitor.java:131-152 | file and type entities: new state and outcome are those of `CAstWalk.ContainerBody` |
| CAstVisitor.Walker.VisitCode | com.ibm.wala.cast/source/java/com/ibm/wala/cast/tree/visit/CAstVisitor.java:153-178 | function and script entities: new state and outcome are those of `CAstWalk.CodeBody` |
| CAstVisitor.Walker.VisitAllScopedEntities | com.ibm.wala.cast/source/java/com/ibm/wala/cast/tree/visit/CAstVisitor.java:109-113 | the loop over every scope's members ends in the state of `CAstWalk.WalkScopedAll` |
| CAstVisitor.Walker.VisitScopedEntities | com.ibm.wala.cast/source/java/com/ibm/wala/cast/tree/visit/CAstVisitor.java:115-121 | the loop that sets each child's parent and then visits it ends in the state of `CAstWalk.WalkScopedList` |
| CAstVisitor.Walker.Visit | com.ibm.wala.cast/source/java/com/ibm/wala/cast/tree/visit/CAstVisitor.java:341-741 | the new state and outcome are those of `CAstWalk.WalkNode` |
| CAstVisitor.Walker.ExecutePlan | com.ibm.wala.cast/source/java/com/ibm/wala/cast/tree/visit/CAstVisitor.java:346-734 | the loop running a kind's step list ends in the state of `CAstWalk.RunPlan` |
| CAstVisitor.Walker.VisitChildren | com.ibm.wala.cast/source/java/com/ibm/wala/cast/tree/visit/CAstVisitor.java:322-326 | the counter loop over children `start..` ends in the state of `CAstWalk.WalkChildren` |
| CAstVisitor.Walker.VisitAllChildren | com.ibm.wala.cast/source/java/com/ibm/wala/cast/tree/visit/CAstVisitor.java:332-334 | it is `VisitChildren` from 0 |
| CAstVisitor.Walker.VisitAssignNodes | com.ibm.wala.cast/source/java/com/ibm/wala/cast/tree/visit/CAstVisitor.java:743-809 | the new state and the returned status (declined, handled or thrown) are those of `CAstWalk.WalkAssign` |
| CAstVisitor.Walker.VisitArrayRefTarget | com.ibm.wala.cast/source/java/com/ibm/wala/cast/tree/visit/CAstVisitor.java:748-760 | the ARRAY_REF target: as `CAstWalk.WalkAssign` for that kind |
| CAstVisitor.Walker.VisitObjectRefTarget | com.ibm.wala.cast/source/java/com/ibm/wala/cast/tree/visit/CAstVisitor.java:762-772 | the OBJECT_REF target: as `CAstWalk.WalkAssign` for that kind |
| CAstVisitor.Walker.VisitBlockTarget | com.ibm.wala.cast/source/java/com/ibm/wala/cast/tree/visit/CAstVisitor.java:774-786 | the BLOCK_EXPR target: as `CAstWalk.WalkAssign` for that kind |
| CAstTree.ScopedAt | com.ibm.wala.cast/source/java/com/ibm/wala/cast/tree/visit/CAstVisitor.java:736-738 | the scoped entities under a key are empty when no scope has that key; otherwise they are the members of a scope with that key |
| CAstTree.ModeOf | com.ibm.wala.cast/source/java/com/ibm/wala/cast/tree/visit/CAstVisitor.java:743-809 | only ASSIGN uses the plain lvalue hooks; the Op hooks get `pre` exactly for ASSIGN_PRE_OP |
| CAstWalkFacts.EnterEntityShortCircuit | com.ibm.wala.cast/source/java/com/ibm/wala/cast/tree/visit/CAstVisitor.java:127-129 | when `enterEntity` returns true, that hook is the only event and nothing else runs, not even `postProcessEntity` |
| CAstWalkFacts.EntityVisitShortCircuit | com.ibm.wala.cast/source/java/com/ibm/wala/cast/tree/visit/CAstVisitor.java:130-187 | when a kind's visit hook returns true, the body and the leave hook are skipped but `postProcessEntity` still runs |
| CAstWalkFacts.ContainerEntityOrder | com.ibm.wala.cast/source/java/com/ibm/wala/cast/tree/visit/CAstVisitor.java:131-152 | file and type entities: derive the context, then visit every scoped entity under it, then leave, then post-process; a failure inside stops the walk there |
| CAstWalkFacts.CodeEntityOrder | com.ibm.wala.cast/source/java/com/ibm/wala/cast/tree/visit/CAstVisitor.java:153-178 | function and script entities: derive the code context, visit the AST under it only when there is one, then the entities under the `null` key, then leave and post-process |
| CAstWalkFacts.ParentsRecorded | com.ibm.wala.cast/source/java/com/ibm/wala/cast/tree/visit/CAstVisitor.java:78-121 | after `visitScopedEntities` completes, every child it walked has an entry in the parent table |
| CAstWalkFacts.EnterNodeShortCircuit | com.ibm.wala.cast/source/java/com/ibm/wala/cast/tree/visit/CAstVisitor.java:341-343 | when `enterNode` returns true, nothing else happens for that node: no children, no scoped entities, no `postProcessNode` |
| CAstWalkFacts.PlanStartsWithVisit | com.ibm.wala.cast/source/java/com/ibm/wala/cast/tree/visit/CAstVisitor.java:347-726 | every known kind's branch starts with its visit hook |
| CAstWalkFacts.NodeVisitShortCircuit | com.ibm.wala.cast/source/java/com/ibm/wala/cast/tree/visit/CAstVisitor.java:341-741 | when a known kind's visit hook returns true, no child is visited and no leave hook fires, but the scoped entities of the node are still visited (under a non-null context) and `postProcessNode` still runs |
| CAstWalkFacts.NodeAlwaysFinishes | com.ibm.wala.cast/source/java/com/ibm/wala/cast/tree/visit/CAstVisitor.java:736-740 | unless `enterNode` short-circuits, the kind branch is always followed by the scoped-entity re-query and `postProcessNode`, unless it failed |
| CAstWalkFacts.UnwindContexts | com.ibm.wala.cast/source/java/com/ibm/wala/cast/tree/visit/CAstVisitor.java:638-646 | UNWIND builds its context from child 1 before visiting anything, visits child 0 under that context and child 1 under the caller's context, then leaves |
| CAstWalkFacts.LocalScopeContext | com.ibm.wala.cast/source/java/com/ibm/wala/cast/tree/visit/CAstVisitor.java:361-368 | LOCAL_SCOPE calls its visit hook under the caller's context first, then derives the local context and visits child 0 under it |
| CAstWalkFacts.IfOrder | com.ibm.wala.cast/source/java/com/ibm/wala/cast/tree/visit/CAstVisitor.java:527-551 | IF_STMT and IF_EXPR, after the visit hook: the walk of the condition, the condition-done hook, the true clause, the true-done hook, the false clause only with a third child, then the leave hook; an abort inside a clause ends the walk there |
| CAstWalkFacts.LvalueShortCircuit | com.ibm.wala.cast/source/java/com/ibm/wala/cast/tree/visit/CAstVisitor.java:599-608 | for an assignment whose target is ARRAY_REF, OBJECT_REF, BLOCK_EXPR or VAR: once child 1 has been walked, an lvalue visit hook returning true is the last event of the branch; the lvalue leave hook and `leaveAssign` do not fire |
| CAstWalkFacts.LvalueHandled | com.ibm.wala.cast/source/java/com/ibm/wala/cast/tree/visit/CAstVisitor.java:743-797 | for each of the four target shapes, an lvalue visit hook returning true is the only event of the dispatch, which reports the target handled: no child of the target is walked and its leave hook does not fire |
| CAstWalkFacts.HandledEndsAssign | com.ibm.wala.cast/source/java/com/ibm/wala/cast/tree/visit/CAstVisitor.java:606-608 | whenever the lvalue dispatch reports the target handled, the branch ends with the dispatch's state and `leaveAssign` does not fire |
| CAstWalkFacts.VarTarget | com.ibm.wala.cast/source/java/com/ibm/wala/cast/tree/visit/CAstVisitor.java:788-797 | a VAR target fires its visit hook and, unless that returns true, its leave hook, and visits no child; the plain/Op mode follows the assignment kind |
| CAstWalkFacts.BlockTarget | com.ibm.wala.cast/source/java/com/ibm/wala/cast/tree/visit/CAstVisitor.java:774-786 | a BLOCK_EXPR target re-dispatches only on its last child, and fires its leave hook only when that dispatch declined |
| CAstWalkFacts.UnknownEntityFails | com.ibm.wala.cast/source/java/com/ibm/wala/cast/tree/visit/CAstVisitor.java:179-184 | an unknown entity kind that `doVisitEntity` declines aborts the walk, and `postProcessEntity` does not run |
| CAstWalkFacts.UnknownNodeFails | com.ibm.wala.cast/source/java/com/ibm/wala/cast/tree/visit/CAstVisitor.java:728-733 | an unknown node kind that `doVisit` declines aborts the walk |
| CAstWalkFacts.UnknownTargetFails | com.ibm.wala.cast/source/java/com/ibm/wala/cast/tree/visit/CAstVisitor.java:799-806 | a target of none of the four shapes that `doVisitAssignNodes` declines throws |
| CAstWalkFacts.MalformedIfGotoFails | com.ibm.wala.cast/source/java/com/ibm/wala/cast/tree/visit/CAstVisitor.java:492-506 | an IFGOTO with neither 1 nor 3 children aborts right after its visit hook, before any child |
| CAstWalkFacts.MalformedLabelFails | com.ibm.wala.cast/source/java/com/ibm/wala/cast/tree/visit/CAstVisitor.java:515-525 | a LABEL_STMT with more than 2 children aborts after visiting its label, child 0 |
| CAstWalkFacts.DefaultKeepsContext | com.ibm.wala.cast/source/java/com/ibm/wala/cast/tree/visit/CAstVisitor.java:44-69 | the default `make*Context` return the context unchanged, so every hook of a default walk gets the starting context, and the trace only grows |
| CAstPlanFacts.CallVisits | com.ibm.wala.cast/source/java/com/ibm/wala/cast/tree/visit/CAstVisitor.java:417-424 | CALL visits child 0 and then children 2 to n-1 in ascending order, never child 1 |
| CAstPlanFacts.OperatorVisits | com.ibm.wala.cast/source/java/com/ibm/wala/cast/tree/visit/CAstVisitor.java:440-455 | BINARY_EXPR visits exactly children 1 then 2; UNARY_EXPR visits only child 1 |
| CAstPlanFacts.SkipFirstVisits | com.ibm.wala.cast/source/java/com/ibm/wala/cast/tree/visit/CAstVisitor.java:553-563 | NEW visits every child but the first, in ascending order (CATCH, lines 630-637, has the same plan) |
| CAstPlanFacts.AssignOrder | com.ibm.wala.cast/source/java/com/ibm/wala/cast/tree/visit/CAstVisitor.java:599-610 | the assignment kinds visit child 1, the right-hand side, as their only plain child, and only then dispatch on the target |
| CAstPlanFacts.FieldInitsShape | com.ibm.wala.cast/source/java/com/ibm/wala/cast/tree/visit/CAstVisitor.java:569-573 | the field-init loop contributes, for each pair k, exactly key, value and the field-init hook for that pair |
| CAstPlanFacts.ObjectLiteralOrder | com.ibm.wala.cast/source/java/com/ibm/wala/cast/tree/visit/CAstVisitor.java:565-576 | OBJECT_LITERAL: child 0, then each pair (i, i+1) for i = 1, 3, ... followed by `leaveObjectLiteralFieldInit(n, i)`, then leave |
| CAstPlanFacts.ElementInitsShape | com.ibm.wala.cast/source/java/com/ibm/wala/cast/tree/visit/CAstVisitor.java:583-586 | the element loop contributes, for each element i >= 1, exactly the element and its init hook |
| CAstPlanFacts.ArrayLiteralOrder | com.ibm.wala.cast/source/java/com/ibm/wala/cast/tree/visit/CAstVisitor.java:578-589 | ARRAY_LITERAL: child 0, then one element visit and one `leaveArrayLiteralInitElement(n, i)` per i >= 1, then leave |
| CAstPlanFacts.MalformedHalts | com.ibm.wala.cast/source/java/com/ibm/wala/cast/tree/visit/CAstVisitor.java:492-525 | IFGOTO halts exactly when its child count is neither 1 nor 3; LABEL_STMT halts exactly when it has more than 2 children |
| CAstWalkGrowth.EntityGrows | com.ibm.wala.cast/source/java/com/ibm/wala/cast/tree/visit/CAstVisitor.java:127-187 | an entity walk only appends to the trace and only adds parents; with context-keeping hooks every new event carries the caller's context |
| CAstWalkGrowth.NodeGrows | com.ibm.wala.cast/source/java/com/ibm/wala/cast/tree/visit/CAstVisitor.java:341-741 | the same for a node walk |
| CAstWalkGrowth.ScopedListGrows | com.ibm.wala.cast/source/java/com/ibm/wala/cast/tree/visit/CAstVisitor.java:115-121 | the same for `visitScopedEntities` |
| CAstWalkGrowth.AssignGrows | com.ibm.wala.cast/source/java/com/ibm/wala/cast/tree/visit/CAstVisitor.java:743-809 | the same for `visitAssignNodes` |
| CAstWellFormed.PlanFits | com.ibm.wala.cast/source/java/com/ibm/wala/cast/tree/visit/CAstVisitor.java:347-726 | for a node that keeps its kind's arity contract, every step of its branch finds the child it needs and no step halts |
| CAstWellFormed.NodeNoFail | com.ibm.wala.cast/source/java/com/ibm/wala/cast/tree/visit/CAstVisitor.java:341-809 | on a tree whose every node keeps the arity contract and every assignment has a supported target, `visit` with context-keeping hooks and a null context never aborts, whatever else the hooks answer |
| CAstPreOrder.DefaultNeverCutsShort | com.ibm.wala.cast/source/java/com/ibm/wala/cast/tree/visit/CAstVisitor.java:195-1584 | every `enter*`, `visit*` and `do*` hook of the base class answers false, so nothing is ever cut short or handled by an extension |
| CAstPreOrder.DefaultMakesSameContext | com.ibm.wala.cast/source/java/com/ibm/wala/cast/tree/visit/CAstVisitor.java:44-69 | every `make*Context` of the base class returns the context it was given |
| CAstPreOrder.WalkEntersEntityOrder | com.ibm.wala.cast/source/java/com/ibm/wala/cast/tree/visit/CAstVisitor.java:127-187 | a walk of an entity with the base class's hooks that completes enters exactly the pre-order flattening `EntityOrder`: the entity, then the members of its scopes (file, type) or its AST and then its `null`-key entities (function, script) |
| CAstPreOrder.WalkEntersNodeOrder | com.ibm.wala.cast/source/java/com/ibm/wala/cast/tree/visit/CAstVisitor.java:341-741 | a walk of a node with the base class's hooks that completes enters exactly the flattening `NodeOrder`: the node, its children in its kind's order with an assignment's target, then the entities scoped at the node |
| CAstPreOrder.EntityVisits | com.ibm.wala.cast/source/java/com/ibm/wala/cast/tree/visit/CAstVisitor.java:127-187 | from any state and for any hooks that never cut short and keep contexts, a completed entity walk appends to the entered sequence exactly `EntityOrder` |
| CAstPreOrder.ContainerVisits | com.ibm.wala.cast/source/java/com/ibm/wala/cast/tree/visit/CAstVisitor.java:131-152 | the same for the body of a file or type entity: the members of every scope, in order |
| CAstPreOrder.CodeVisits | com.ibm.wala.cast/source/java/com/ibm/wala/cast/tree/visit/CAstVisitor.java:153-178 | the same for the body of a function or script entity: its AST when it has one, then the entities under the `null` key |
| CAstPreOrder.ScopedAllVisits | com.ibm.wala.cast/source/java/com/ibm/wala/cast/tree/visit/CAstVisitor.java:109-113 | the loop over all scopes enters the flattening of every member of every remaining scope, in order |
| CAstPreOrder.ScopedListVisits | com.ibm.wala.cast/source/java/com/ibm/wala/cast/tree/visit/CAstVisitor.java:115-121 | the loop over a scope's members enters the flattening of each remaining member, in order |
| CAstPreOrder.NodeVisits | com.ibm.wala.cast/source/java/com/ibm/wala/cast/tree/visit/CAstVisitor.java:341-741 | a completed node walk appends exactly `NodeOrder` to the entered sequence |
| CAstPreOrder.BranchVisits | com.ibm.wala.cast/source/java/com/ibm/wala/cast/tree/visit/CAstVisitor.java:346-734 | the kind-specific branch of `visit` enters exactly the flattening of the children its kind visits and of an assignment's target |
| CAstPreOrder.ChildrenVisits | com.ibm.wala.cast/source/java/com/ibm/wala/cast/tree/visit/CAstVisitor.java:322-326 | `visitChildren(n, start)` enters the flattening of children `start..` in ascending order |
| CAstPreOrder.AssignVisits | com.ibm.wala.cast/source/java/com/ibm/wala/cast/tree/visit/CAstVisitor.java:743-809 | the lvalue dispatch never reports a target handled under such hooks, and when it declines it has entered exactly `TargetOrder`: an array and its indices, an object, or the last child of a block |
| CAstPreOrder.PlanVisitsOrder | com.ibm.wala.cast/source/java/com/ibm/wala/cast/tree/visit/CAstVisitor.java:347-726 | every kind but the assignment and extension kinds visits, through its step list, exactly the children the independent table `Order` lists (for OBJECT_LITERAL, with an odd child count) |
| CAstPreOrder.PlanOrderAgrees | com.ibm.wala.cast/source/java/com/ibm/wala/cast/tree/visit/CAstVisitor.java:347-809 | what a kind's step list contributes to the flattening is exactly the branch `BranchOrder` built from `Order`, for every kind including assignments and OBJECT_LITERAL with an unpaired key |
| LogicTerms.Make | com.ibm.wala.core/src/com/ibm/wala/logic/FunctionTerm.java:25-31 | a null function throws `IllegalArgumentException`; otherwise the term keeps the function and the parameter list as given |
| LogicTerms.FactoryShapes | com.ibm.wala.core/src/com/ibm/wala/logic/FunctionTerm.java:33-94 | unary factories give one parameter, binary ones two in argument order; an int becomes an `IntConstant`; the kind is FUNCTION |
| LogicTerms.FreeVariablesOccur | com.ibm.wala.core/src/com/ibm/wala/logic/FunctionTerm.java:96-102 | a variable is free in a term exactly when it occurs in it |
| LogicTerms.GetFreeVariables | com.ibm.wala.core/src/com/ibm/wala/logic/FunctionTerm.java:96-102 | the loop's set is the union of the parameters' free variables, empty without parameters |
| LogicTerms.EqualsMeans | com.ibm.wala.core/src/com/ibm/wala/logic/FunctionTerm.java:113-133 | `equals` holds exactly for a term equal to this one: same function and element-wise equal parameters; a null or other object is never equal |
| LogicTerms.ElementEqualsMeans | com.ibm.wala.core/src/com/ibm/wala/logic/FunctionTerm.java:113-133 | parameter comparison with each element's `equals` is equality |
| LogicTerms.EqualTermsHashEqually | com.ibm.wala.core/src/com/ibm/wala/logic/FunctionTerm.java:104-111 | equal terms have equal `hashCode` |
| LogicTerms.ToString | com.ibm.wala.core/src/com/ibm/wala/logic/FunctionTerm.java:38-48 | the buffer loop computes the rendering `Render`, including the exception it throws |
| LogicTerms.NullaryToStringThrows | com.ibm.wala.core/src/com/ibm/wala/logic/FunctionTerm.java:38-48 | as written, a function of no parameters makes `toString` call `get(-1)` and throw |
| LogicTerms.NullaryToStringFixed | com.ibm.wala.core/src/com/ibm/wala/logic/FunctionTerm.java:38-48 | the corrected rendering prints such a term as `symbol()` |
| LogicTerms.RenderShape | com.ibm.wala.core/src/com/ibm/wala/logic/FunctionTerm.java:38-48 | the corrected rendering is the symbol, "(", the first arity-many parameter texts joined by ",", and ")" |
| LogicTerms.FixAgrees | com.ibm.wala.core/src/com/ibm/wala/logic/FunctionTerm.java:38-48 | wherever the code as written succeeds, the corrected rendering gives the same text |
| LexicalWrites.Write | com.ibm.wala.cast/source/java/com/ibm/wala/cast/ir/ssa/AstLexicalWrite.java:19-21 | the (definer, globalName, rhs) constructor makes a single access named `globalName`, defined by `definer`, with value number `rhs` |
| LexicalWrites.WriteAccess | com.ibm.wala.cast/source/java/com/ibm/wala/cast/ir/ssa/AstLexicalWrite.java:23-25 | the single-access constructor holds exactly that access |
| LexicalWrites.GetUse | com.ibm.wala.cast/source/java/com/ibm/wala/cast/ir/ssa/AstLexicalWrite.java:45-47 | use i exists exactly for 0 <= i < the access count, and is access i's value number; otherwise index out of bounds |
| LexicalWrites.GetDef | com.ibm.wala.cast/source/java/com/ibm/wala/cast/ir/ssa/AstLexicalWrite.java:49-51 | `getDef` always throws |
| LexicalWrites.NoDefs | com.ibm.wala.cast/source/java/com/ibm/wala/cast/ir/ssa/AstLexicalWrite.java:49-51 | there are no defs and no def can be read |
| LexicalWrites.CopyForSSA | com.ibm.wala.cast/source/java/com/ibm/wala/cast/ir/ssa/AstLexicalWrite.java:31-43 | a null `uses` gives the same accesses; otherwise the copy succeeds exactly when `uses` is long enough, and keeps the count, each name and definer, with use i read back by `getUse(i)` as `uses[i]`; a short array throws at index `uses.length`; copying with the write's own uses gives back the same write |
| LexicalWrites.ToString | com.ibm.wala.cast/source/java/com/ibm/wala/cast/ir/ssa/AstLexicalWrite.java:53-67 | the buffer loop yields each access as `lexical:name@definer = value`, in order, joined by ", " |
| BooleanVariables.BooleanVariable.constructor | com.ibm.wala.core/src/com/ibm/wala/fixpoint/BooleanVariable.java:31-33 | the hash-only constructor starts at false |
| BooleanVariables.BooleanVariable.WithValue | com.ibm.wala.core/src/com/ibm/wala/fixpoint/BooleanVariable.java:38-41 | the (b, hash) constructor starts at b |
| BooleanVariables.BooleanVariable.CopyState | com.ibm.wala.core/src/com/ibm/wala/fixpoint/BooleanVariable.java:45-48 | the value becomes v's and v is unchanged; a null v throws and changes nothing |
| BooleanVariables.BooleanVariable.Or | com.ibm.wala.core/src/com/ibm/wala/fixpoint/BooleanVariable.java:71-78 | the value becomes old value or other's value, so true stays true; a null `other` is an assertion failure, or a null dereference when assertions are off |
| BooleanVariables.BooleanVariable.Set | com.ibm.wala.core/src/com/ibm/wala/fixpoint/BooleanVariable.java:64-92 | after `set(b)`, `getValue()` is b |
| BooleanVariables.BooleanVariable.SameValue | com.ibm.wala.core/src/com/ibm/wala/fixpoint/BooleanVariable.java:51-53 | true exactly when the two values agree; a null argument throws |
| BooleanVariables.EqualCellsHashEqually | com.ibm.wala.core/src/com/ibm/wala/fixpoint/BooleanVariable.java:83-85 | `hashCode()` is the hash given at construction, and cells that are `equals` have equal hashes; no operation can change it, because `HashCode` reads no mutable state of the cell |
| BooleanVariables.IdentityNotValue | com.ibm.wala.core/src/com/ibm/wala/fixpoint/BooleanVariable.java:51-98 | two distinct cells with the same value have the same value but are not `equals`: equality is identity |
| BooleanVariables.TextInjective | com.ibm.wala.core/src/com/ibm/wala/fixpoint/BooleanVariable.java:58-60 | the text, the hash followed by "[TRUE]" or "[FALSE]", determines both the hash and the value |
| ReflectedFieldKeys.LiteralKey | com.ibm.wala.cast/source/java/com/ibm/wala/cast/ipa/callgraph/ReflectedFieldPointerKey.java:45-51 | `literal(lit, i)` has identifier `lit` and instance `i` |
| ReflectedFieldKeys.MappedKey | com.ibm.wala.cast/source/java/com/ibm/wala/cast/ipa/callgraph/ReflectedFieldPointerKey.java:53-59 | `mapped(m, i)` has identifier `m` and instance `i` |
| ReflectedFieldKeys.IndexKey | com.ibm.wala.cast/source/java/com/ibm/wala/cast/ipa/callgraph/ReflectedFieldPointerKey.java:61-67 | `index(i)` has the array-state sentinel as identifier and instance `i` |
| ReflectedFieldKeys.EqualsMeans | com.ibm.wala.cast/source/java/com/ibm/wala/cast/ipa/callgraph/ReflectedFieldPointerKey.java:28-37 | two keys are `equals` exactly when they have equal identifiers and equal instance keys; no other object is equal |
| ReflectedFieldKeys.EqualKeysHashEqually | com.ibm.wala.cast/source/java/com/ibm/wala/cast/ipa/callgraph/ReflectedFieldPointerKey.java:39-41 | equal keys have equal hash codes |
| ReflectedFieldKeys.ToString | com.ibm.wala.cast/source/java/com/ibm/wala/cast/ipa/callgraph/ReflectedFieldPointerKey.java:43 | the text is "field:" followed by the identifier's text: the literal for a literal key, the instance key's text for a mapped key, and "ArrayStateKey" for an index key |
| ReflectedFieldKeys.IndexKeysShareSentinel | com.ibm.wala.cast/source/java/com/ibm/wala/cast/ipa/callgraph/ReflectedFieldPointerKey.java:24-67 | every `index` key has the same identifier, so two are equal exactly when their instances are |
| ReflectedFieldKeys.IndexNeverNamed | com.ibm.wala.cast/source/java/com/ibm/wala/cast/ipa/callgraph/ReflectedFieldPointerKey.java:24-67 | an `index` key is never equal to a literal or mapped key in either direction, although its text equals that of the literal "ArrayStateKey" |
| ReflectedFieldKeys.OtherObjectsDiffer | com.ibm.wala.cast/source/java/com/ibm/wala/cast/ipa/callgraph/ReflectedFieldPointerKey.java:28-37 | an object that is not a reflected key is never equal |
| SourcePositions.EqualsMeans | com.ibm.wala.cast/source/java/com/ibm/wala/cast/tree/impl/AbstractSourcePosition.java:18-31 | positions are equal exactly when the four coordinates match and the URLs are both null or equal |
| SourcePositions.OtherObjectsDiffer | com.ibm.wala.cast/source/java/com/ibm/wala/cast/tree/impl/AbstractSourcePosition.java:18-52 | null and objects that are not positions are never `equals`, and `compareTo` returns 0 for them |
| SourcePositions.HashIsProduct | com.ibm.wala.cast/source/java/com/ibm/wala/cast/tree/impl/AbstractSourcePosition.java:33-35 | the hash is the 32-bit wrapped product of the four coordinates |
| SourcePositions.EqualPositionsHashEqually | com.ibm.wala.cast/source/java/com/ibm/wala/cast/tree/impl/AbstractSourcePosition.java:18-35 | equal positions hash equally |
| SourcePositions.CompareZero | com.ibm.wala.cast/source/java/com/ibm/wala/cast/tree/impl/AbstractSourcePosition.java:37-48 | `compareTo` of two positions is 0 exactly when all four coordinates match, whatever the URLs |
| SourcePositions.EqualsComparesZero | com.ibm.wala.cast/source/java/com/ibm/wala/cast/tree/impl/AbstractSourcePosition.java:18-52 | equal positions compare as 0 |
| SourcePositions.CompareIsLexicographic | com.ibm.wala.cast/source/java/com/ibm/wala/cast/tree/impl/AbstractSourcePosition.java:37-48 | when no coordinate difference overflows `int`, `compareTo` is negative exactly when p is before q in the order (firstLine, firstCol, lastLine, lastCol), and positive exactly when q is before p |
| SourcePositions.CompareIsOrder | com.ibm.wala.cast/source/java/com/ibm/wala/cast/tree/impl/AbstractSourcePosition.java:37-48 | when no coordinate difference among the three positions overflows `int`: the sign is antisymmetric, 0 is symmetric, and "less than" is transitive |
| SourcePositions.ToStringInjective | com.ibm.wala.cast/source/java/com/ibm/wala/cast/tree/impl/AbstractSourcePosition.java:54-56 | the text "[fl:fc] -> [ll:lc]" determines all four coordinates |
| JavaText.WrapMul | com.ibm.wala.cast/source/java/com/ibm/wala/cast/tree/impl/AbstractSourcePosition.java:33-35 | wrapping after each multiplication equals wrapping once, as Java's `int` product does |
| JavaText.StringHashIsPolynomial | com.ibm.wala.cast/source/java/com/ibm/wala/cast/ipa/callgraph/ReflectedFieldPointerKey.java:39-41 | `String.hashCode`, which a literal key's hash is, computed step by step in `int` arithmetic equals the documented polynomial s[0]*31^(n-1) + ... + s[n-1] wrapped once to 32 bits |
| JavaText.DecimalRoundTrip | com.ibm.wala.cast/source/java/com/ibm/wala/cast/tree/impl/AbstractSourcePosition.java:54-56 | the decimal text of an int parses back to it, so the text is determined by the number and vice versa |
| JavaText.JoinSnoc | com.ibm.wala.cast/source/java/com/ibm/wala/cast/ir/ssa/AstLexicalWrite.java:53-67 | appending one more piece to a non-empty join adds exactly one separator and the piece |

## Left out

- Fuel: entity visits consume a `fuel` bound. A node's scoped entities come from the context's top entity, which need not be inside the tree being walked, so nothing structural bounds the recursion. An exhausted bound is the outcome `Exhausted`, which Java does not have; the source's non-termination on a cyclic scope graph is not captured.
- Hooks: what subclasses do in hooks is left out. Answers and derived contexts come from an oracle that sees the trace so far. The hooks' own side effects beyond the trace are not modelled.
- Dispatch: `visitAssignNodes` is overridable. The model always runs the base implementation.
- Diagnostics: `Trace.println`, `CAstPrinter.print` and the `Assertions.UNREACHABLE` message texts are printing. Each failure carries only the offending kind (or child count) as a typed `Failure`.
- Unknown lvalue message: it dereferences `context.top()`, which throws a `NullPointerException` instead when the context is null. The model reports `UnhandledLvalue` in both cases.
- Child access: `getChild` out of range is the failure `MissingChild(kind, index)`. `CAstNode` implementations are not part of this model.
- Scope order: the iteration order of `getAllScopedEntities().values()` depends on the entity's map implementation, which is not shown. The model takes it as a given sequence of scopes.
- Identity: node and entity identity is an `id` field. A context is identified by its top entity and a tag.
- CAstWalkFacts.ParentsRecorded: states only that every walked child has a parent entry, not that the entry is `n`. A nested walk that meets the same entity again under another parent overwrites it, because the last write wins.
- CAstWellFormed.NodeNoFail: proved for a null starting context and for hooks whose `make*Context` keep the context. With a non-null context, the scoped entities of arbitrary top entities are visited, and nothing bounds their shape.
- SourcePositions.CompareIsLexicographic: requires that no coordinate difference overflows `int`. When one does, Java's subtraction wraps and the sign of `compareTo` can disagree with the order; non-negative coordinates never overflow.
- SourcePositions.CompareIsOrder: requires the same absence of overflow for the three pairs it relates, for the same reason.
- `AstInducedCFG`: not part of this model. It only wraps CFG classes that are not shown.
- `AstLexicalWrite.visit`: a double dispatch into an external visitor interface.
- Unshown collaborators are left abstract:
  - `IFunction`, `Variable` and `IntConstant` are reduced to an identity, a hash, a symbol and arity, or a value.
  - Leaf hashes and texts are a parameter, `Leaves`.
  - `InstanceKey` is an identity, a hash and a text.
  - `URL` is its spec string.
  - `AstLexicalAccess.Access` is a record of name, definer and value number.
  - `getValueString` is the `valueText` parameter.
  - `Assertions.verifyAssertions` is a parameter of `Or`.
  - The hash of the array-state sentinel object is a parameter.
- Null elements and strings: null elements inside parameter lists and null strings are not modelled. Constructor arguments other than the null `IFunction` are taken as non-null.
- `getParameters`: it is modelled as returning the stored sequence, which is immutable, so it is read-only by construction. The unmodifiable-list wrapper is not modelled.
- Characters: Java's UTF-16 `char` is Dafny's `char`; no encoding is modelled.
- CAstPreOrder.WalkEntersNodeOrder, CAstPreOrder.WalkEntersEntityOrder: the pre-order result is stated for the base class's hooks (and, in the lemmas they rest on, for any hooks that never return true and keep every context). A subclass that cuts the walk short or changes contexts enters a different sequence, which the short-circuit and context lemmas of `CAstWalkFacts` describe instead.
- LexicalWrites.CopyForSSA: `copyForSSA(defs, null)` hands the original `Access[]` array to the new instruction, so both share it. The model has immutable accesses, so the sharing, and any later in-place change seen through both, is not captured.
- BooleanVariables.BooleanVariable.CopyState: `copyState` takes any `IVariable` and casts it to `BooleanVariable`. Another variable type makes it throw `ClassCastException`; the model's parameter is typed `BooleanVariable?`, so that case cannot be expressed.
- Concurrency: none is involved.

## Findings

| source | as written | input that shows it | evidently intended | confidence | as-written member | corrected member |
|---|---|---|---|---|---|---|
| com.ibm.wala.core/src/com/ibm/wala/logic/FunctionTerm.java:38-48 | after the loop, `toString` always appends `parameters.get(f.getNumberOfParameters() - 1)` | a term whose function has 0 parameters: it calls `get(-1)` and throws `IndexOutOfBoundsException` | such a term prints as `symbol()` | not executed | LogicTerms.NullaryToStringThrows | LogicTerms.NullaryToStringFixed |
