/**
 * The round trip of a walk. Under the base class's own hooks, the nodes and
 * entities a walk enters are, in order, exactly a pre-order flattening of
 * the tree that is computed here without hooks, state, plans or failures:
 * each node or entity comes before what it contains, children come in the
 * order their kind visits them, and the entities scoped at a node come right
 * after that node's own subtree.
 *
 * Under the base class's hooks every make*Context returns its argument, so
 * a walk keeps the context it started with, and the entities scoped at a
 * node are looked up in that context's top entity.
 */
module CAstPreOrder {
  import opened Wrappers
  import opened CAstTree
  import opened CAstPlan
  import opened CAstPlanFacts
  import opened CAstWalk

  /** One `enterNode` or `enterEntity` call. */
  datatype Visit = NodeVisit(node: Node) | EntityVisit(entity: Entity)

  function EnteredBy(ev: Event): seq<Visit>
  {
    if ev.EnterNode? then [NodeVisit(ev.n)]
    else if ev.EnterEntity? then [EntityVisit(ev.e)]
    else []
  }

  /** The nodes and entities a trace entered, in order. */
  function Visits(trace: seq<Event>): seq<Visit>
  {
    if |trace| == 0 then [] else Visits(trace[..|trace| - 1]) + EnteredBy(trace[|trace| - 1])
  }

  /** Hooks that never cut the walk short and keep every context, as the
      base class's do. */
  ghost predicate Passive(h: Hooks)
  {
    forall history, ev :: !h.answer(history, ev) && h.make(history, ev) == ContextOf(ev)
  }

  predicate IsAssign(k: NodeKind)
  {
    k == Assign || k == AssignPreOp || k == AssignPostOp
  }

  /** The children `visit` descends into as nodes, by kind, in order. The
      target of an assignment, child 0, is walked by the lvalue dispatch
      instead, and so is not listed. */
  function Order(n: Node): seq<nat>
  {
    var c := |n.children|;
    match n.kind
    case FunctionExpr | FunctionStmt | GetCaughtException | This | Super | Var | Constant
      | Goto | Empty | Primitive | Void => []
    case LocalScope | ArrayLength | ObjectRef | Throw | Assert | EachElementGet
      | EachElementHasNext | TypeLiteralExpr => [0]
    case UnaryExpr | Cast | InstanceOf | Assign | AssignPreOp | AssignPostOp => [1]
    case BinaryExpr => [1, 2]
    case Loop | Switch | Try | Unwind => [0, 1]
    case BlockExpr | BlockStmt => Range(0, c)
    case New | Catch => Range(1, c)
    case Call | ArrayRef => [0] + Range(2, c)
    case ObjectLiteral | ArrayLiteral => [0] + Range(1, c)
    case DeclStmt => if c == 4 then [3] else []
    case Return => if c > 0 then [0] else []
    case IfGoto => if c == 1 then [0] else if c == 3 then [1, 2] else []
    case LabelStmt => if c == 2 then [0, 1] else [0]
    case IfStmt | IfExpr => if c == 3 then [0, 1, 2] else [0, 1]
    case OtherNode(_) => []
  }

  /** An entity, then what it contains; `fuel` bounds the nesting of
      entities as it does for the walk. */
  function EntityOrder(e: Entity, ctx: Context, fuel: nat): seq<Visit>
    decreases fuel, 0
  {
    if fuel == 0 then [] else [EntityVisit(e)] + InsideOrder(e, ctx, fuel - 1)
  }

  /** What an entity contains: for a file or type, the members of all its
      scopes; for a function or script, its AST and then the entities scoped
      to the entity as a whole. */
  function InsideOrder(e: Entity, ctx: Context, fuel: nat): seq<Visit>
    decreases fuel, 4
  {
    if e.kind == FileEntity || e.kind == TypeEntity then ScopesOrder(e.scopes, ctx, fuel)
    else if e.kind == FunctionEntity || e.kind == ScriptEntity then
      (if e.ast.Some? then NodeOrder(e.ast.value, ctx, fuel) else []) + ListOrder(ScopedAt(e, Global), ctx, fuel)
    else []
  }

  function ListOrder(list: seq<Entity>, ctx: Context, fuel: nat): seq<Visit>
    decreases fuel, 1, |list|
  {
    if |list| == 0 then [] else EntityOrder(list[0], ctx, fuel) + ListOrder(list[1..], ctx, fuel)
  }

  function ScopesOrder(scopes: seq<Scope>, ctx: Context, fuel: nat): seq<Visit>
    decreases fuel, 2, |scopes|
  {
    if |scopes| == 0 then [] else ListOrder(scopes[0].members, ctx, fuel) + ScopesOrder(scopes[1..], ctx, fuel)
  }

  /** A node, then the children its kind visits, in `Order`, and an
      assignment's target; then the entities scoped at the node. */
  function NodeOrder(n: Node, ctx: Context, fuel: nat): seq<Visit>
    decreases fuel, 3, n, 2
  {
    [NodeVisit(n)] + (BranchOrder(n, ctx, fuel) + AtOrder(n, ctx, fuel))
  }

  /** What the kind-specific branch of `visit` walks below `n`. */
  function BranchOrder(n: Node, ctx: Context, fuel: nat): seq<Visit>
    decreases fuel, 3, n, 1
  {
    ChildOrder(n, Order(n), ctx, fuel)
    + (if IsAssign(n.kind) && |n.children| > 0 then TargetOrder(n.children[0], ctx, fuel) else [])
  }

  /** The entities scoped at `n` in the context's top entity. */
  function AtOrder(n: Node, ctx: Context, fuel: nat): seq<Visit>
    decreases fuel, 3, n, 0
  {
    if ctx.Ctx? then ListOrder(ScopedAt(ctx.top, At(n)), ctx, fuel) else []
  }

  /** The subtrees of the children of `n` at indices `ks`, in that order; an
      index past the last child stands for nothing. */
  function ChildOrder(n: Node, ks: seq<nat>, ctx: Context, fuel: nat): seq<Visit>
    decreases fuel, 3, n, 1, |ks|
  {
    if |ks| == 0 then []
    else
      var head := if ks[0] < |n.children| then NodeOrder(n.children[ks[0]], ctx, fuel) else [];
      head + ChildOrder(n, ks[1..], ctx, fuel)
  }

  /** What the lvalue dispatch walks of an assignment target: the array and
      its indices, the object, or the target inside a block. */
  function TargetOrder(t: Node, ctx: Context, fuel: nat): seq<Visit>
    decreases fuel, 3, t, 2
  {
    if t.kind == ArrayRef then ChildOrder(t, [0] + Range(2, |t.children|), ctx, fuel)
    else if t.kind == ObjectRef then ChildOrder(t, [0], ctx, fuel)
    else if t.kind == BlockExpr && |t.children| > 0 then TargetOrder(t.children[|t.children| - 1], ctx, fuel)
    else []
  }

  /** The walk, with the base class's hooks and from an empty state, of an
      entity or a node. */
  function DefaultEntityWalk(e: Entity, ctx: Context, fuel: nat): Run
  {
    WalkEntity(DefaultHooks(), State([], map[]), e, ctx, fuel)
  }

  function DefaultNodeWalk(n: Node, ctx: Context, fuel: nat): Run
  {
    WalkNode(DefaultHooks(), State([], map[]), n, ctx, fuel)
  }

  /** The base class's `enter*`, `visit*` and `do*` hooks all end in
      `return false`, so none cuts the walk short. */
  lemma DefaultNeverCutsShort()
    ensures forall history, ev :: !DefaultHooks().answer(history, ev)
  {
  }

  /** The base class's `make*Context` hooks return their context argument. */
  lemma DefaultMakesSameContext()
    ensures forall history, ev :: DefaultHooks().make(history, ev) == ContextOf(ev)
  {
  }

  lemma DefaultIsPassive()
    ensures Passive(DefaultHooks())
  {
    DefaultNeverCutsShort();
    DefaultMakesSameContext();
  }

  /** The round trip for entities: a walk that completes enters exactly the
      flattening of the entity. */
  lemma WalkEntersEntityOrder(e: Entity, ctx: Context, fuel: nat)
    ensures DefaultEntityWalk(e, ctx, fuel).out.Normal? ==>
      Visits(DefaultEntityWalk(e, ctx, fuel).st.trace) == EntityOrder(e, ctx, fuel)
  {
    DefaultIsPassive();
    EntityVisits(DefaultHooks(), State([], map[]), e, ctx, fuel);
  }

  /** The round trip for nodes: a walk that completes enters exactly the
      flattening of the node. */
  lemma WalkEntersNodeOrder(n: Node, ctx: Context, fuel: nat)
    ensures DefaultNodeWalk(n, ctx, fuel).out.Normal? ==>
      Visits(DefaultNodeWalk(n, ctx, fuel).st.trace) == NodeOrder(n, ctx, fuel)
  {
    DefaultIsPassive();
    NodeVisits(DefaultHooks(), State([], map[]), n, ctx, fuel);
  }

  // ----- The plan of each kind visits the children `Order` lists -----

  /** A middle part between the opening steps and a leave hook. */
  lemma PlanVisitsFramed(first: seq<Step>, mid: seq<Step>, count: nat)
    ensures PlanVisits(first + mid + [Leave], count) == PlanVisits(first, count) + PlanVisits(mid, count)
  {
    PlanVisitsSnoc(first + mid, Leave, count);
    PlanVisitsConcat(first, mid, count);
  }

  lemma {:induction false} RangeSnoc(from: nat, to: nat)
    requires from <= to
    ensures Range(from, to + 1) == Range(from, to) + [to]
    decreases if from <= to then to - from else 0
  {
    if from < to {
      RangeSnoc(from + 1, to);
    }
  }

  /** One round of the pair loop visits the key and the value. */
  lemma FieldInitsHead(from: nat, count: nat, c: nat)
    requires from < count
    ensures PlanVisits(FieldInits(from, count), c) == [from] + ([from + 1] + PlanVisits(FieldInits(from + 2, count), c))
  {
    var head := [Child(from, Outer), Child(from + 1, Outer), MidHook(FieldInitDone(from))];
    var rest := PlanVisits(FieldInits(from + 2, count), c);
    PlanVisitsConcat(head, FieldInits(from + 2, count), c);
    PlanVisits3(Child(from, Outer), Child(from + 1, Outer), MidHook(FieldInitDone(from)), c);
    assert PlanVisits(head, c) == [from] + [from + 1];
    Assoc([from], [from + 1], rest);
  }

  /** The indices the pair loop of OBJECT_LITERAL visits: all of them from
      `from` on, and one past the end when a key has no value. */
  lemma FieldInitsVisits(from: nat, count: nat, c: nat)
    ensures PlanVisits(FieldInits(from, count), c)
      == if from < count then Range(from, count + (count - from) % 2) else []
  {
    if from < count {
      var half := (count - from + 1) / 2;
      assert from + 2 * half == count + (count - from) % 2;
      FieldInitsPairs(from, count, c, half);
    } else {
      assert FieldInits(from, count) == [];
    }
  }

  /** The pair loop from `from` runs `half` rounds and visits `2 * half`
      consecutive indices. */
  lemma {:induction false} FieldInitsPairs(from: nat, count: nat, c: nat, half: nat)
    requires count <= from + 2 * half <= count + 1
    ensures PlanVisits(FieldInits(from, count), c) == Range(from, from + 2 * half)
    decreases half, 1
  {
    if half > 0 {
      FieldInitsRound(from, count, c, half);
    } else {
      FieldInitsDone(from, count, c);
    }
  }

  lemma {:induction false} FieldInitsRound(from: nat, count: nat, c: nat, half: nat)
    requires half > 0 && count <= from + 2 * half <= count + 1
    ensures PlanVisits(FieldInits(from, count), c) == Range(from, from + 2 * half)
    decreases half, 0
  {
    FieldInitsHead(from, count, c);
    FieldInitsPairs(from + 2, count, c, half - 1);
    RangeCons2(from, from + 2 * half);
  }

  lemma FieldInitsDone(from: nat, count: nat, c: nat)
    requires count <= from
    ensures PlanVisits(FieldInits(from, count), c) == Range(from, from)
  {
    assert FieldInits(from, count) == [];
  }

  lemma RangeCons2(from: nat, end: nat)
    requires from + 2 <= end
    ensures Range(from, end) == [from] + ([from + 1] + Range(from + 2, end))
  {
    assert Range(from, end) == [from] + Range(from + 1, end);
    assert Range(from + 1, end) == [from + 1] + Range(from + 2, end);
  }

  /** The indices the element loop of ARRAY_LITERAL visits. */
  lemma {:induction false} ElementInitsVisits(from: nat, count: nat, c: nat)
    ensures PlanVisits(ElementInits(from, count), c) == Range(from, count)
    decreases count - from
  {
    if from < count {
      var head := [Child(from, Outer), MidHook(ElementInitDone(from))];
      var rest := ElementInits(from + 1, count);
      PlanVisitsConcat(head, rest, c);
      PlanVisits2(Child(from, Outer), MidHook(ElementInitDone(from)), c);
      assert PlanVisits(head, c) == [from];
      ElementInitsVisits(from + 1, count, c);
    }
  }

  /** The kinds with nothing below them visit no child. */
  lemma LeafPlanOrder(n: Node)
    requires n.kind in {FunctionExpr, FunctionStmt, GetCaughtException, This, Super, Var, Constant, Goto, Empty, Primitive, Void}
    ensures PlanVisits(Plan(n), |n.children|) == Order(n)
  {
    assert Plan(n) == [VisitHook, Leave];
    PlanVisits2(VisitHook, Leave, |n.children|);
  }

  /** The kinds whose only step between the hooks walks one child, or all
      children from some index on. */
  lemma OneStepPlanOrder(n: Node)
    requires n.kind in {BlockExpr, BlockStmt, New, Catch, UnaryExpr, ArrayLength, ObjectRef, Throw, Cast, InstanceOf,
                        Assert, EachElementGet, EachElementHasNext, TypeLiteralExpr}
    ensures PlanVisits(Plan(n), |n.children|) == Order(n)
  {
    if n.kind in {BlockExpr, BlockStmt, New, Catch, UnaryExpr, Cast, InstanceOf} {
      OneStepPlanOrderA(n);
    } else {
      OneStepPlanOrderB(n);
    }
  }

  /** Those of the kinds above whose step walks all children from some
      index on, or the second child. */
  lemma OneStepPlanOrderA(n: Node)
    requires n.kind in {BlockExpr, BlockStmt, New, Catch, UnaryExpr, Cast, InstanceOf}
    ensures PlanVisits(Plan(n), |n.children|) == Order(n)
  {
    var k := n.kind;
    if k == BlockExpr || k == BlockStmt {
      OneStepVisits(n, ChildrenFrom(0));
    } else if k == New || k == Catch {
      OneStepVisits(n, ChildrenFrom(1));
    } else if k == UnaryExpr {
      OneStepVisits(n, Child(1, Outer));
    } else {
      OneStepVisits(n, Child(1, Outer));
    }
  }

  /** Those whose step walks the first child alone. */
  lemma OneStepPlanOrderB(n: Node)
    requires n.kind in {ArrayLength, ObjectRef, Throw, Assert, EachElementGet, EachElementHasNext, TypeLiteralExpr}
    ensures PlanVisits(Plan(n), |n.children|) == Order(n)
  {
    var k := n.kind;
    if k == ArrayLength || k == ObjectRef {
      OneStepVisits(n, Child(0, Outer));
    } else if k == Throw || k == Assert {
      OneStepVisits(n, Child(0, Outer));
    } else if k == EachElementGet || k == EachElementHasNext {
      OneStepVisits(n, Child(0, Outer));
    } else {
      OneStepVisits(n, Child(0, Outer));
    }
  }

  /** A plan with one step between the hooks visits what that step does. */
  lemma OneStepVisits(n: Node, step: Step)
    requires Plan(n) == [VisitHook, step, Leave]
    ensures PlanVisits(Plan(n), |n.children|) == StepVisits(step, |n.children|)
  {
    var c := |n.children|;
    PlanVisits3(VisitHook, step, Leave, c);
    assert [] + StepVisits(step, c) + [] == StepVisits(step, c);
  }

  /** The kinds with two steps between the hooks. */
  lemma TwoStepPlanOrder(n: Node)
    requires n.kind in {LocalScope, Call, BinaryExpr, ArrayRef}
    ensures PlanVisits(Plan(n), |n.children|) == Order(n)
  {
    var p := Plan(n);
    assert p == [VisitHook, p[1], p[2], Leave];
    PlanVisits4(VisitHook, p[1], p[2], Leave, |n.children|);
  }

  /** The kinds with three steps between the hooks. */
  lemma ThreeStepPlanOrder(n: Node)
    requires n.kind in {Loop, Switch, Unwind, Try}
    ensures PlanVisits(Plan(n), |n.children|) == Order(n)
  {
    var p := Plan(n);
    assert p == [VisitHook, p[1], p[2], p[3], Leave];
    PlanVisits5(VisitHook, p[1], p[2], p[3], Leave, |n.children|);
  }

  /** DECL_STMT visits its initialiser only when it has four children, and
      RETURN its value only when there is one. */
  lemma DeclReturnPlanOrder(n: Node)
    requires n.kind == DeclStmt || n.kind == Return
    ensures PlanVisits(Plan(n), |n.children|) == Order(n)
  {
    var c := |n.children|;
    var mid := if n.kind == DeclStmt then (if c == 4 then [Child(3, Outer)] else [])
               else (if c > 0 then [Child(0, Outer)] else []);
    assert Plan(n) == [VisitHook] + mid + [Leave];
    PlanVisitsFramed([VisitHook], mid, c);
    PlanVisits1(VisitHook, c);
    if mid != [] {
      PlanVisits1(mid[0], c);
      assert mid == [mid[0]];
    }
  }

  /** IFGOTO visits its target alone, or its two operands; any other count
      visits nothing before it halts. */
  lemma IfGotoPlanOrder(n: Node)
    requires n.kind == IfGoto
    ensures PlanVisits(Plan(n), |n.children|) == Order(n)
  {
    var c := |n.children|;
    var mid := if c == 1 then [Child(0, Outer)]
               else if c == 3 then [Child(1, Outer), Child(2, Outer)]
               else [Halt(MalformedIfGoto(c))];
    assert Plan(n) == [VisitHook] + mid + [Leave];
    PlanVisitsFramed([VisitHook], mid, c);
    PlanVisits1(VisitHook, c);
    if c == 3 {
      PlanVisits2(Child(1, Outer), Child(2, Outer), c);
    } else {
      PlanVisits1(mid[0], c);
    }
  }

  /** LABEL_STMT visits its label, and its statement when there is one. */
  lemma LabelPlanOrder(n: Node)
    requires n.kind == LabelStmt
    ensures PlanVisits(Plan(n), |n.children|) == Order(n)
  {
    var c := |n.children|;
    var first := [VisitHook, Child(0, Outer)];
    var mid := if c == 2 then [Child(1, Outer)] else if c < 2 then [] else [Halt(MalformedLabel(c))];
    assert Plan(n) == first + mid + [Leave];
    PlanVisitsFramed(first, mid, c);
    PlanVisits2(VisitHook, Child(0, Outer), c);
    if mid != [] {
      PlanVisits1(mid[0], c);
    }
  }

  /** The if plan visits the condition and the true clause, and the false
      clause when there is a third child. */
  lemma IfPlanVisits(count: nat, c: nat)
    ensures PlanVisits(IfPlan(count), c) == if count == 3 then [0, 1, 2] else [0, 1]
  {
    var head := [VisitHook, Child(0, Outer), MidHook(ConditionDone), Child(1, Outer), MidHook(TrueClauseDone)];
    var opt := if count == 3 then [Child(2, Outer)] else [];
    assert IfPlan(count) == head + opt + [Leave];
    PlanVisitsFramed(head, opt, c);
    PlanVisits5(head[0], head[1], head[2], head[3], head[4], c);
    assert PlanVisits(head, c) == [0, 1];
    if count == 3 {
      PlanVisits1(Child(2, Outer), c);
    }
  }

  /** IF_STMT and IF_EXPR visit the children their plan visits. */
  lemma IfPlanOrder(n: Node)
    requires n.kind == IfStmt || n.kind == IfExpr
    ensures PlanVisits(Plan(n), |n.children|) == Order(n)
  {
    assert Plan(n) == IfPlan(|n.children|);
    IfPlanVisits(|n.children|, |n.children|);
  }

  /** OBJECT_LITERAL visits child 0 and then every child from 1 on, and one
      child past the last when a key has no value. */
  lemma ObjectLiteralPlanVisits(n: Node)
    requires n.kind == ObjectLiteral
    ensures var c := |n.children|;
      PlanVisits(Plan(n), c) == [0] + (if c % 2 == 1 || c == 0 then Range(1, c) else Range(1, c + 1))
  {
    var c := |n.children|;
    assert Plan(n) == [VisitHook, Child(0, Outer)] + FieldInits(1, c) + [Leave];
    ObjectLiteralStepsVisits(c);
  }

  /** The steps of an OBJECT_LITERAL plan with `c` children. */
  lemma ObjectLiteralStepsVisits(c: nat)
    ensures PlanVisits([VisitHook, Child(0, Outer)] + FieldInits(1, c) + [Leave], c)
      == [0] + (if c % 2 == 1 || c == 0 then Range(1, c) else Range(1, c + 1))
  {
    var first := [VisitHook, Child(0, Outer)];
    var mid := FieldInits(1, c);
    PlanVisitsFramed(first, mid, c);
    PlanVisits2(VisitHook, Child(0, Outer), c);
    FieldInitsVisits(1, c, c);
    var pm := PlanVisits(mid, c);
    if c % 2 == 1 || c == 0 {
      assert pm == Range(1, c) by {
        if c > 1 {
          assert c + (c - 1) % 2 == c;
        }
      }
    } else {
      assert c + (c - 1) % 2 == c + 1;
      assert pm == Range(1, c + 1);
    }
  }



  /** ARRAY_LITERAL visits child 0 and then every child from 1 on. */
  lemma ArrayLiteralPlanVisits(n: Node)
    requires n.kind == ArrayLiteral
    ensures PlanVisits(Plan(n), |n.children|) == [0] + Range(1, |n.children|)
  {
    var c := |n.children|;
    var head := [VisitHook, Child(0, Outer), MidHook(ArrayObjectDone)];
    assert Plan(n) == head + ElementInits(1, c) + [Leave];
    PlanVisitsFramed(head, ElementInits(1, c), c);
    PlanVisits3(VisitHook, Child(0, Outer), MidHook(ArrayObjectDone), c);
    assert PlanVisits(head, c) == [0];
    ElementInitsVisits(1, c, c);
  }

  /** Every kind but the assignments and the extension kinds visits, through
      its plan, exactly the children `Order` lists, given the odd child count
      OBJECT_LITERAL expects. */
  lemma PlanVisitsOrder(n: Node)
    requires !IsAssign(n.kind) && !n.kind.OtherNode?
    requires n.kind == ObjectLiteral ==> |n.children| % 2 == 1
    ensures PlanVisits(Plan(n), |n.children|) == Order(n)
  {
    if n.kind == ObjectLiteral {
      ObjectLiteralPlanVisits(n);
    } else if n.kind == ArrayLiteral {
      ArrayLiteralPlanVisits(n);
    } else if n.kind == DeclStmt || n.kind == Return {
      DeclReturnPlanOrder(n);
    } else if n.kind == IfGoto {
      IfGotoPlanOrder(n);
    } else if n.kind == LabelStmt {
      LabelPlanOrder(n);
    } else if n.kind == IfStmt || n.kind == IfExpr {
      IfPlanOrder(n);
    } else if n.kind in {FunctionExpr, FunctionStmt, GetCaughtException, This, Super, Var, Constant, Goto, Empty, Primitive, Void} {
      LeafPlanOrder(n);
    } else if n.kind in {LocalScope, Call, BinaryExpr, ArrayRef} {
      TwoStepPlanOrder(n);
    } else if n.kind in {Loop, Switch, Unwind, Try} {
      ThreeStepPlanOrder(n);
    } else {
      OneStepPlanOrder(n);
    }
  }

  // ----- From plan steps to the flattening -----

  function StepOrder(n: Node, s: Step, ctx: Context, fuel: nat): seq<Visit>
  {
    match s
    case Child(k, _) => ChildOrder(n, [k], ctx, fuel)
    case ChildrenFrom(start) => ChildOrder(n, Range(start, |n.children|), ctx, fuel)
    case AssignTarget => if |n.children| > 0 then TargetOrder(n.children[0], ctx, fuel) else []
    case _ => []
  }

  /** The flattening the steps of `plan` from `i` on contribute. */
  function StepsOrder(n: Node, plan: seq<Step>, i: nat, ctx: Context, fuel: nat): seq<Visit>
    decreases |plan| - i
  {
    if i >= |plan| then [] else StepOrder(n, plan[i], ctx, fuel) + StepsOrder(n, plan, i + 1, ctx, fuel)
  }

  lemma {:induction false} ChildOrderConcat(n: Node, a: seq<nat>, b: seq<nat>, ctx: Context, fuel: nat)
    ensures ChildOrder(n, a + b, ctx, fuel) == ChildOrder(n, a, ctx, fuel) + ChildOrder(n, b, ctx, fuel)
    decreases |a|
  {
    if |a| == 0 {
      assert a + b == b;
    } else {
      assert (a + b)[0] == a[0] && (a + b)[1..] == a[1..] + b;
      ChildOrderConcat(n, a[1..], b, ctx, fuel);
      Assoc(if a[0] < |n.children| then NodeOrder(n.children[a[0]], ctx, fuel) else [],
            ChildOrder(n, a[1..], ctx, fuel), ChildOrder(n, b, ctx, fuel));
    }
  }

  lemma Assoc<T>(a: seq<T>, b: seq<T>, c: seq<T>)
    ensures (a + b) + c == a + (b + c)
  {
  }

  lemma {:induction false} StepsOrderVisits(n: Node, plan: seq<Step>, i: nat, ctx: Context, fuel: nat)
    requires i <= |plan| && forall s | s in plan :: !s.AssignTarget?
    ensures StepsOrder(n, plan, i, ctx, fuel) == ChildOrder(n, PlanVisits(plan[i..], |n.children|), ctx, fuel)
    decreases |plan| - i
  {
    var c := |n.children|;
    if i < |plan| {
      assert plan[i..][0] == plan[i] && plan[i..][1..] == plan[i + 1..];
      StepsOrderVisits(n, plan, i + 1, ctx, fuel);
      ChildOrderConcat(n, StepVisits(plan[i], c), PlanVisits(plan[i + 1..], c), ctx, fuel);
      assert plan[i] in plan;
      assert StepOrder(n, plan[i], ctx, fuel) == ChildOrder(n, StepVisits(plan[i], c), ctx, fuel);
    } else {
      assert plan[i..] == [];
    }
  }

  lemma {:induction false} NoTargetInFieldInits(from: nat, count: nat)
    ensures forall s | s in FieldInits(from, count) :: !s.AssignTarget?
    decreases count - from
  {
    if from < count {
      NoTargetInFieldInits(from + 2, count);
    }
  }

  lemma {:induction false} NoTargetInElementInits(from: nat, count: nat)
    ensures forall s | s in ElementInits(from, count) :: !s.AssignTarget?
    decreases count - from
  {
    if from < count {
      NoTargetInElementInits(from + 1, count);
    }
  }

  /** Only the assignment kinds dispatch on a target. */
  lemma NoTargetStep(n: Node)
    requires !IsAssign(n.kind)
    ensures forall s | s in Plan(n) :: !s.AssignTarget?
  {
    var c := |n.children|;
    if n.kind == ObjectLiteral {
      NoTargetInFieldInits(1, c);
      assert Plan(n) == [VisitHook, Child(0, Outer)] + FieldInits(1, c) + [Leave];
    } else if n.kind == ArrayLiteral {
      NoTargetInElementInits(1, c);
      assert Plan(n) == [VisitHook, Child(0, Outer), MidHook(ArrayObjectDone)] + ElementInits(1, c) + [Leave];
    }
  }

  /** An OBJECT_LITERAL whose last key has no value names one child past the
      last, which stands for nothing. */
  lemma ObjectLiteralAgrees(n: Node, ctx: Context, fuel: nat)
    requires n.kind == ObjectLiteral
    ensures ChildOrder(n, PlanVisits(Plan(n), |n.children|), ctx, fuel) == ChildOrder(n, Order(n), ctx, fuel)
  {
    var c := |n.children|;
    var ks := [0] + Range(1, c);
    assert Order(n) == ks;
    ObjectLiteralPlanVisits(n);
    var pv := PlanVisits(Plan(n), c);
    if c % 2 == 0 && c > 0 {
      assert pv == [0] + Range(1, c + 1);
      ObjectLiteralPast(n, pv, ctx, fuel);
    } else {
      assert pv == ks;
    }
  }

  /** The trailing index past the last child adds nothing. */
  lemma ObjectLiteralPast(n: Node, pv: seq<nat>, ctx: Context, fuel: nat)
    requires |n.children| > 0 && pv == [0] + Range(1, |n.children| + 1)
    ensures ChildOrder(n, pv, ctx, fuel) == ChildOrder(n, [0] + Range(1, |n.children|), ctx, fuel)
  {
    var c := |n.children|;
    var ks := [0] + Range(1, c);
    RangeSnoc(1, c);
    assert pv == ks + [c];
    ChildOrderPast(n, ks, c, ctx, fuel);
  }

  /** An index past the last child adds nothing. */
  lemma ChildOrderPast(n: Node, ks: seq<nat>, k: nat, ctx: Context, fuel: nat)
    requires k >= |n.children|
    ensures ChildOrder(n, ks + [k], ctx, fuel) == ChildOrder(n, ks, ctx, fuel)
  {
    ChildOrderConcat(n, ks, [k], ctx, fuel);
    assert [k][1..] == [];
    var tail := ChildOrder(n, [k], ctx, fuel);
    assert tail == [];
    var front := ChildOrder(n, ks, ctx, fuel);
    assert front + [] == front;
  }


  /** The children a node's plan walks, as a flattening, are its children in
      `Order`; an index the plan names but the node lacks stands for
      nothing in either. */
  lemma NonAssignAgrees(n: Node, ctx: Context, fuel: nat)
    requires !IsAssign(n.kind)
    ensures ChildOrder(n, PlanVisits(Plan(n), |n.children|), ctx, fuel) == ChildOrder(n, Order(n), ctx, fuel)
  {
    if n.kind.OtherNode? {
      ExtensionAgrees(n, ctx, fuel);
    } else if n.kind == ObjectLiteral {
      ObjectLiteralAgrees(n, ctx, fuel);
    } else {
      OrderedAgrees(n, ctx, fuel);
    }
  }

  /** A node of a kind the visitor does not know hands itself to the
      extension hook and walks no child. */
  lemma ExtensionAgrees(n: Node, ctx: Context, fuel: nat)
    requires n.kind.OtherNode?
    ensures ChildOrder(n, PlanVisits(Plan(n), |n.children|), ctx, fuel) == ChildOrder(n, Order(n), ctx, fuel)
  {
    PlanVisits1(Extension, |n.children|);
    assert Plan(n) == [Extension];
  }

  /** The kinds whose plan visits exactly the indices `Order` lists. */
  lemma OrderedAgrees(n: Node, ctx: Context, fuel: nat)
    requires !IsAssign(n.kind) && !n.kind.OtherNode? && n.kind != ObjectLiteral
    ensures ChildOrder(n, PlanVisits(Plan(n), |n.children|), ctx, fuel) == ChildOrder(n, Order(n), ctx, fuel)
  {
    PlanVisitsOrder(n);
  }

  /** The assignment plan: the right-hand side, then the target. */
  lemma AssignAgrees(n: Node, ctx: Context, fuel: nat)
    requires IsAssign(n.kind)
    ensures StepsOrder(n, Plan(n), 0, ctx, fuel) == BranchOrder(n, ctx, fuel)
  {
    var p := Plan(n);
    assert p == [VisitHook, Child(1, Outer), AssignTarget, Leave];
    var t := if |n.children| > 0 then TargetOrder(n.children[0], ctx, fuel) else [];
    assert StepsOrder(n, p, 3, ctx, fuel) == [];
    assert StepsOrder(n, p, 2, ctx, fuel) == t;
    assert [1][1..] == [];
    assert StepsOrder(n, p, 1, ctx, fuel) == ChildOrder(n, [1], ctx, fuel) + t;
  }

  /** What a node's plan contributes to the flattening is its branch. */
  lemma PlanOrderAgrees(n: Node, ctx: Context, fuel: nat)
    ensures StepsOrder(n, Plan(n), 0, ctx, fuel) == BranchOrder(n, ctx, fuel)
  {
    if IsAssign(n.kind) {
      AssignAgrees(n, ctx, fuel);
    } else {
      var p := Plan(n);
      NoTargetStep(n);
      StepsOrderVisits(n, p, 0, ctx, fuel);
      assert p[0..] == p;
      NonAssignAgrees(n, ctx, fuel);
    }
  }

  // ----- The walk enters the flattening -----

  lemma VisitsFire(st: State, ev: Event)
    ensures Visits(st.Fire(ev).trace) == Visits(st.trace) + EnteredBy(ev)
  {
    assert (st.trace + [ev])[..|st.trace|] == st.trace;
  }

  lemma VisitsQuiet(st: State, ev: Event)
    requires !ev.EnterNode? && !ev.EnterEntity?
    ensures Visits(st.Fire(ev).trace) == Visits(st.trace)
  {
    VisitsFire(st, ev);
  }

  /** Two walks one after the other enter what each enters. The
      arguments are what `Visits` gives for the three states. */
  lemma Chain(va: seq<Visit>, vb: seq<Visit>, vc: seq<Visit>, x: seq<Visit>, y: seq<Visit>)
    requires vb == va + x && vc == vb + y
    ensures vc == va + (x + y)
  {
    Assoc(va, x, y);
  }

  lemma {:induction false} EntityVisits(h: Hooks, st: State, e: Entity, ctx: Context, fuel: nat)
    requires Passive(h)
    ensures var r := WalkEntity(h, st, e, ctx, fuel);
      r.out.Normal? ==> Visits(r.st.trace) == Visits(st.trace) + EntityOrder(e, ctx, fuel)
    decreases fuel, 0, 1
  {
    if fuel > 0 {
      var enter := EnterEntity(e, ctx);
      var s1 := st.Fire(enter);
      EntityShape(h, st, e, ctx, fuel);
      VisitsFire(st, enter);
      BodyVisits(h, s1, e, ctx, fuel);
      var r := EntityBody(h, s1, e, ctx, fuel);
      if r.out.Normal? {
        VisitsQuiet(r.st, PostProcessEntity(e, ctx));
        EntityJoin(e, ctx, fuel, Visits(st.trace), Visits(s1.trace), Visits(r.st.trace));
      }
    }
  }

  /** Under passive hooks an entity is entered, its body walked, and the
      post-processing hook fired. */
  lemma EntityShape(h: Hooks, st: State, e: Entity, ctx: Context, fuel: nat)
    requires Passive(h) && fuel > 0
    ensures var r := EntityBody(h, st.Fire(EnterEntity(e, ctx)), e, ctx, fuel);
      WalkEntity(h, st, e, ctx, fuel) == if r.out.Fatal? then r else Run(r.st.Fire(PostProcessEntity(e, ctx)), Normal)
  {
    assert !h.answer(st.trace, EnterEntity(e, ctx));
  }

  /** The entity, then what it contains, make its flattening. */
  lemma EntityJoin(e: Entity, ctx: Context, fuel: nat, va: seq<Visit>, vb: seq<Visit>, vc: seq<Visit>)
    requires fuel > 0
    requires vb == va + [EntityVisit(e)] && vc == vb + InsideOrder(e, ctx, fuel - 1)
    ensures vc == va + EntityOrder(e, ctx, fuel)
  {
    Chain(va, vb, vc, [EntityVisit(e)], InsideOrder(e, ctx, fuel - 1));
  }

  lemma {:induction false} BodyVisits(h: Hooks, st: State, e: Entity, ctx: Context, fuel: nat)
    requires Passive(h) && fuel > 0
    ensures var r := EntityBody(h, st, e, ctx, fuel);
      r.out.Normal? ==> Visits(r.st.trace) == Visits(st.trace) + InsideOrder(e, ctx, fuel - 1)
    decreases fuel, 0, 0, 1
  {
    if e.kind == FileEntity || e.kind == TypeEntity {
      assert EntityBody(h, st, e, ctx, fuel) == ContainerBody(h, st, e, ctx, fuel);
      ContainerVisits(h, st, e, ctx, fuel);
    } else if e.kind == FunctionEntity || e.kind == ScriptEntity {
      assert EntityBody(h, st, e, ctx, fuel) == CodeBody(h, st, e, ctx, fuel);
      CodeVisits(h, st, e, ctx, fuel);
    } else if e.kind == FieldEntity {
      var v := VisitEntity(e, ctx, ctx);
      assert !h.answer(st.trace, v);
      VisitsQuiet(st, v);
      VisitsQuiet(st.Fire(v), LeaveEntity(e, ctx, ctx));
    } else {
      assert !h.answer(st.trace, DoVisitEntity(e, ctx));
    }
  }

  lemma {:induction false} ContainerVisits(h: Hooks, st: State, e: Entity, ctx: Context, fuel: nat)
    requires Passive(h) && fuel > 0
    ensures var r := ContainerBody(h, st, e, ctx, fuel);
      r.out.Normal? ==> Visits(r.st.trace) == Visits(st.trace) + ScopesOrder(e.scopes, ctx, fuel - 1)
    decreases fuel, 0, 0, 0, 1
  {
    var s1 := st.Fire(MakeEntityContext(e, ctx));
    var s2 := s1.Fire(VisitEntity(e, ctx, ctx));
    ContainerShape(h, st, e, ctx, fuel);
    VisitsQuiet(st, MakeEntityContext(e, ctx));
    VisitsQuiet(s1, VisitEntity(e, ctx, ctx));
    ContainerTail(h, s2, e, ctx, fuel, fuel - 1);
  }

  /** Under passive hooks a file or type entity walks its scopes, then
      leaves. */
  lemma ContainerShape(h: Hooks, st: State, e: Entity, ctx: Context, fuel: nat)
    requires Passive(h) && fuel > 0
    ensures var s2 := st.Fire(MakeEntityContext(e, ctx)).Fire(VisitEntity(e, ctx, ctx));
      var r := WalkScopedAll(h, s2, e, e.scopes, 0, ctx, fuel - 1);
      ContainerBody(h, st, e, ctx, fuel) == if r.out.Fatal? then r else Run(r.st.Fire(LeaveEntity(e, ctx, ctx)), Normal)
  {
    var mk := MakeEntityContext(e, ctx);
    assert h.make(st.trace, mk) == ctx;
    assert !h.answer(st.Fire(mk).trace, VisitEntity(e, ctx, ctx));
  }

  /** The scopes of a file or type entity, then the leave hook. `f` is
      `fuel - 1`, the fuel of the nested walks. */
  lemma {:induction false} ContainerTail(h: Hooks, s: State, e: Entity, ctx: Context, fuel: nat, f: nat)
    requires Passive(h) && f + 1 == fuel
    ensures var r := WalkScopedAll(h, s, e, e.scopes, 0, ctx, fuel - 1);
      r.out.Normal? ==> Visits(r.st.Fire(LeaveEntity(e, ctx, ctx)).trace) == Visits(s.trace) + ScopesOrder(e.scopes, ctx, fuel - 1)
    decreases fuel, 0, 0, 0, 0
  {
    ScopedAllVisits(h, s, e, e.scopes, 0, ctx, f);
    assert e.scopes[0..] == e.scopes;
    var r := WalkScopedAll(h, s, e, e.scopes, 0, ctx, f);
    if r.out.Normal? {
      VisitsQuiet(r.st, LeaveEntity(e, ctx, ctx));
    }
  }


  lemma {:induction false} CodeVisits(h: Hooks, st: State, e: Entity, ctx: Context, fuel: nat)
    requires Passive(h) && fuel > 0
    ensures var r := CodeBody(h, st, e, ctx, fuel);
      var ast := if e.ast.Some? then NodeOrder(e.ast.value, ctx, fuel - 1) else [];
      r.out.Normal? ==>
        Visits(r.st.trace) == Visits(st.trace) + (ast + ListOrder(ScopedAt(e, Global), ctx, fuel - 1))
    decreases fuel, 0, 0, 0, 2
  {
    if e.ast.Some? {
      TreeCodeVisits(h, st, e, ctx, fuel);
    } else {
      TreelessCodeVisits(h, st, e, ctx, fuel);
      var ys := ListOrder(ScopedAt(e, Global), ctx, fuel - 1);
      assert [] + ys == ys;
    }
  }

  /** A function or script entity with a tree. */
  lemma {:induction false} TreeCodeVisits(h: Hooks, st: State, e: Entity, ctx: Context, fuel: nat)
    requires Passive(h) && fuel > 0 && e.ast.Some?
    ensures var r := CodeBody(h, st, e, ctx, fuel);
      r.out.Normal? ==>
        Visits(r.st.trace) == Visits(st.trace) + (NodeOrder(e.ast.value, ctx, fuel - 1) + ListOrder(ScopedAt(e, Global), ctx, fuel - 1))
    decreases fuel, 0, 0, 0, 1
  {
    var s1 := st.Fire(MakeEntityContext(e, ctx));
    var s2 := s1.Fire(VisitEntity(e, ctx, ctx));
    TreeCodeShape(h, st, e, ctx, fuel);
    VisitsQuiet(st, MakeEntityContext(e, ctx));
    VisitsQuiet(s1, VisitEntity(e, ctx, ctx));
    TreeCodeTail(h, s2, e, ctx, fuel, fuel - 1);
    var r1 := WalkNode(h, s2, e.ast.value, ctx, fuel - 1);
    if r1.out.Normal? {
      var r2 := WalkScopedList(h, r1.st, e, ScopedAt(e, Global), 0, ctx, fuel - 1);
      if r2.out.Normal? {
        VisitsQuiet(r2.st, LeaveEntity(e, ctx, ctx));
      }
    }
  }

  /** `f` is `fuel - 1`, the fuel of the nested walks. */
  lemma {:induction false} TreeCodeTail(h: Hooks, s: State, e: Entity, ctx: Context, fuel: nat, f: nat)
    requires Passive(h) && f + 1 == fuel && e.ast.Some?
    ensures var r1 := WalkNode(h, s, e.ast.value, ctx, fuel - 1);
      var r2 := WalkScopedList(h, r1.st, e, ScopedAt(e, Global), 0, ctx, fuel - 1);
      r1.out.Normal? && r2.out.Normal? ==>
        Visits(r2.st.trace) == Visits(s.trace) + (NodeOrder(e.ast.value, ctx, fuel - 1) + ListOrder(ScopedAt(e, Global), ctx, fuel - 1))
    decreases fuel, 0, 0, 0, 0
  {
    TreeCodeTailAt(h, s, e, ctx, f);
  }

  /** The tree of a code entity, then the entities scoped at it as a whole. */
  lemma {:induction false} TreeCodeTailAt(h: Hooks, s: State, e: Entity, ctx: Context, f: nat)
    requires Passive(h) && e.ast.Some?
    ensures var r1 := WalkNode(h, s, e.ast.value, ctx, f);
      var r2 := WalkScopedList(h, r1.st, e, ScopedAt(e, Global), 0, ctx, f);
      r1.out.Normal? && r2.out.Normal? ==>
        Visits(r2.st.trace) == Visits(s.trace) + (NodeOrder(e.ast.value, ctx, f) + ListOrder(ScopedAt(e, Global), ctx, f))
    decreases f, 4
  {
    NodeVisits(h, s, e.ast.value, ctx, f);
    var r1 := WalkNode(h, s, e.ast.value, ctx, f);
    if r1.out.Normal? {
      ScopedAtVisits(h, r1.st, e, ctx, f);
      var r2 := WalkScopedList(h, r1.st, e, ScopedAt(e, Global), 0, ctx, f);
      if r2.out.Normal? {
        var va, vb, vc := Visits(s.trace), Visits(r1.st.trace), Visits(r2.st.trace);
        var xs, ys := NodeOrder(e.ast.value, ctx, f), ListOrder(ScopedAt(e, Global), ctx, f);
        Chain(va, vb, vc, xs, ys);
      }
    }
  }

  /** Under passive hooks a code entity with a tree walks the tree, then
      its scoped entities, then leaves. */
  lemma TreeCodeShape(h: Hooks, st: State, e: Entity, ctx: Context, fuel: nat)
    requires Passive(h) && fuel > 0 && e.ast.Some?
    ensures var s2 := st.Fire(MakeEntityContext(e, ctx)).Fire(VisitEntity(e, ctx, ctx));
      var r1 := WalkNode(h, s2, e.ast.value, ctx, fuel - 1);
      var r2 := WalkScopedList(h, r1.st, e, ScopedAt(e, Global), 0, ctx, fuel - 1);
      CodeBody(h, st, e, ctx, fuel) ==
        if r1.out.Fatal? then r1 else if r2.out.Fatal? then r2 else Run(r2.st.Fire(LeaveEntity(e, ctx, ctx)), Normal)
  {
    var mk := MakeEntityContext(e, ctx);
    assert h.make(st.trace, mk) == ctx;
    assert !h.answer(st.Fire(mk).trace, VisitEntity(e, ctx, ctx));
  }

  /** A function or script entity without a tree. */
  lemma {:induction false} TreelessCodeVisits(h: Hooks, st: State, e: Entity, ctx: Context, fuel: nat)
    requires Passive(h) && fuel > 0 && e.ast.None?
    ensures var r := CodeBody(h, st, e, ctx, fuel);
      r.out.Normal? ==> Visits(r.st.trace) == Visits(st.trace) + ListOrder(ScopedAt(e, Global), ctx, fuel - 1)
    decreases fuel, 0, 0, 0, 1
  {
    var s1 := st.Fire(MakeEntityContext(e, ctx));
    var s2 := s1.Fire(VisitEntity(e, ctx, ctx));
    TreelessCodeShape(h, st, e, ctx, fuel);
    VisitsQuiet(st, MakeEntityContext(e, ctx));
    VisitsQuiet(s1, VisitEntity(e, ctx, ctx));
    CodeListVisits(h, s2, e, ctx, fuel, fuel - 1);
  }

  /** Under passive hooks a code entity without a tree walks its scoped
      entities, then leaves. */
  lemma TreelessCodeShape(h: Hooks, st: State, e: Entity, ctx: Context, fuel: nat)
    requires Passive(h) && fuel > 0 && e.ast.None?
    ensures var s2 := st.Fire(MakeEntityContext(e, ctx)).Fire(VisitEntity(e, ctx, ctx));
      var r2 := WalkScopedList(h, s2, e, ScopedAt(e, Global), 0, ctx, fuel - 1);
      CodeBody(h, st, e, ctx, fuel) == if r2.out.Fatal? then r2 else Run(r2.st.Fire(LeaveEntity(e, ctx, ctx)), Normal)
  {
    var mk := MakeEntityContext(e, ctx);
    assert h.make(st.trace, mk) == ctx;
    assert !h.answer(st.Fire(mk).trace, VisitEntity(e, ctx, ctx));
  }

  /** The entities scoped at a code entity as a whole, then the leave hook.
      `f` is `fuel - 1`, the fuel of the nested walks. */
  lemma {:induction false} CodeListVisits(h: Hooks, s: State, e: Entity, ctx: Context, fuel: nat, f: nat)
    requires Passive(h) && f + 1 == fuel
    ensures var r := WalkScopedList(h, s, e, ScopedAt(e, Global), 0, ctx, fuel - 1);
      r.out.Normal? ==> Visits(r.st.Fire(LeaveEntity(e, ctx, ctx)).trace) == Visits(s.trace) + ListOrder(ScopedAt(e, Global), ctx, fuel - 1)
    decreases fuel, 0, 0, 0, 0
  {
    ScopedAtVisits(h, s, e, ctx, f);
    var r := WalkScopedList(h, s, e, ScopedAt(e, Global), 0, ctx, f);
    if r.out.Normal? {
      VisitsQuiet(r.st, LeaveEntity(e, ctx, ctx));
    }
  }

  /** The entities scoped at a code entity as a whole. */
  lemma {:induction false} ScopedAtVisits(h: Hooks, s: State, e: Entity, ctx: Context, fuel: nat)
    requires Passive(h)
    ensures var r := WalkScopedList(h, s, e, ScopedAt(e, Global), 0, ctx, fuel);
      r.out.Normal? ==> Visits(r.st.trace) == Visits(s.trace) + ListOrder(ScopedAt(e, Global), ctx, fuel)
    decreases fuel, 1, |ScopedAt(e, Global)| + 1
  {
    var list := ScopedAt(e, Global);
    ScopedListVisits(h, s, e, list, 0, ctx, fuel);
    assert list[0..] == list;
  }

  lemma {:induction false} ScopedAllVisits(h: Hooks, st: State, parent: Entity, scopes: seq<Scope>, j: nat, ctx: Context, fuel: nat)
    requires Passive(h) && j <= |scopes|
    ensures var r := WalkScopedAll(h, st, parent, scopes, j, ctx, fuel);
      r.out.Normal? ==> Visits(r.st.trace) == Visits(st.trace) + ScopesOrder(scopes[j..], ctx, fuel)
    decreases fuel, 2, |scopes| - j
  {
    if j < |scopes| {
      var members := scopes[j].members;
      ScopedListVisits(h, st, parent, members, 0, ctx, fuel);
      assert members[0..] == members;
      assert scopes[j..][0] == scopes[j] && scopes[j..][1..] == scopes[j + 1..];
      var r := WalkScopedList(h, st, parent, members, 0, ctx, fuel);
      if r.out.Normal? {
        ScopedAllVisits(h, r.st, parent, scopes, j + 1, ctx, fuel);
        var r2 := WalkScopedAll(h, r.st, parent, scopes, j + 1, ctx, fuel);
        if r2.out.Normal? {
          var va, vb, vc := Visits(st.trace), Visits(r.st.trace), Visits(r2.st.trace);
          var xs, ys := ListOrder(members, ctx, fuel), ScopesOrder(scopes[j + 1..], ctx, fuel);
          Chain(va, vb, vc, xs, ys);
        }
      }
    } else {
      assert scopes[j..] == [];
    }
  }

  lemma {:induction false} ScopedListVisits(h: Hooks, st: State, parent: Entity, list: seq<Entity>, i: nat, ctx: Context, fuel: nat)
    requires Passive(h) && i <= |list|
    ensures var r := WalkScopedList(h, st, parent, list, i, ctx, fuel);
      r.out.Normal? ==> Visits(r.st.trace) == Visits(st.trace) + ListOrder(list[i..], ctx, fuel)
    decreases fuel, 1, |list| - i
  {
    if i < |list| {
      var s1 := st.(parents := st.parents[list[i] := parent]);
      EntityVisits(h, s1, list[i], ctx, fuel);
      assert list[i..][0] == list[i] && list[i..][1..] == list[i + 1..];
      var r := WalkEntity(h, s1, list[i], ctx, fuel);
      if r.out.Normal? {
        ScopedListVisits(h, r.st, parent, list, i + 1, ctx, fuel);
        var r2 := WalkScopedList(h, r.st, parent, list, i + 1, ctx, fuel);
        if r2.out.Normal? {
          var va, vb, vc := Visits(s1.trace), Visits(r.st.trace), Visits(r2.st.trace);
          var xs, ys := EntityOrder(list[i], ctx, fuel), ListOrder(list[i + 1..], ctx, fuel);
          Chain(va, vb, vc, xs, ys);
        }
      }
    } else {
      assert list[i..] == [];
    }
  }

  lemma {:induction false} NodeVisits(h: Hooks, st: State, n: Node, ctx: Context, fuel: nat)
    requires Passive(h)
    ensures var r := WalkNode(h, st, n, ctx, fuel);
      r.out.Normal? ==> Visits(r.st.trace) == Visits(st.trace) + NodeOrder(n, ctx, fuel)
    decreases fuel, 3, n
  {
    var enter := EnterNode(n, ctx);
    assert !h.answer(st.trace, enter);
    var s1 := st.Fire(enter);
    VisitsFire(st, enter);
    BranchVisits(h, s1, n, ctx, fuel);
    var r := RunPlan(h, s1, n, ctx, ctx, Plan(n), 0, fuel);
    if r.out.Normal? {
      var r2 := if ctx.Ctx? then WalkScopedList(h, r.st, ctx.top, ScopedAt(ctx.top, At(n)), 0, ctx, fuel)
                else Run(r.st, Normal);
      if ctx.Ctx? {
        var list := ScopedAt(ctx.top, At(n));
        ScopedListVisits(h, r.st, ctx.top, list, 0, ctx, fuel);
        assert list[0..] == list;
      }
      if r2.out.Normal? {
        var v0, v1, v2, v3 := Visits(st.trace), Visits(s1.trace), Visits(r.st.trace), Visits(r2.st.trace);
        var branch, at := BranchOrder(n, ctx, fuel), AtOrder(n, ctx, fuel);
        Chain(v1, v2, v3, branch, at);
        Chain(v0, v1, v3, [NodeVisit(n)], branch + at);
        VisitsQuiet(r2.st, PostProcessNode(n, ctx));
      }
    }
  }

  /** The kind-specific branch of `visit` enters the branch's flattening. */
  lemma {:induction false} BranchVisits(h: Hooks, st: State, n: Node, ctx: Context, fuel: nat)
    requires Passive(h)
    ensures var r := RunPlan(h, st, n, ctx, ctx, Plan(n), 0, fuel);
      r.out.Normal? ==> Visits(r.st.trace) == Visits(st.trace) + BranchOrder(n, ctx, fuel)
    decreases fuel, 3, n, 2
  {
    PlanStepsVisits(h, st, n, ctx, Plan(n), 0, fuel);
    PlanOrderAgrees(n, ctx, fuel);
  }

  lemma {:induction false} PlanStepsVisits(h: Hooks, st: State, n: Node, ctx: Context, plan: seq<Step>, i: nat, fuel: nat)
    requires Passive(h) && i <= |plan|
    ensures var r := RunPlan(h, st, n, ctx, ctx, plan, i, fuel);
      r.out.Normal? ==> Visits(r.st.trace) == Visits(st.trace) + StepsOrder(n, plan, i, ctx, fuel)
    decreases fuel, 3, n, 1, |plan| - i, 1
  {
    if i < |plan| {
      if plan[i].Child? {
        ChildStepVisits(h, st, n, ctx, plan, i, fuel);
      } else if plan[i].ChildrenFrom? {
        ChildrenStepVisits(h, st, n, ctx, plan, i, fuel);
      } else if plan[i].AssignTarget? {
        TargetStepVisits(h, st, n, ctx, plan, i, fuel);
      } else if plan[i].VisitHook? || plan[i].MidHook? || plan[i].Leave? {
        FireStepVisits(h, st, n, ctx, plan, i, fuel);
      } else if plan[i].MakeLocal? || plan[i].MakeUnwind? {
        ContextStepVisits(h, st, n, ctx, plan, i, fuel);
      } else {
        HaltStepFails(h, st, n, ctx, plan, i, fuel);
      }
    }
  }

  /** What step `i` enters, then what the steps after it enter, make what
      the steps from `i` on enter. */
  lemma StepsJoin(n: Node, plan: seq<Step>, i: nat, ctx: Context, fuel: nat, x: seq<Visit>,
                  va: seq<Visit>, vb: seq<Visit>, vc: seq<Visit>)
    requires i < |plan| && StepOrder(n, plan[i], ctx, fuel) == x
    requires vb == va + x && vc == vb + StepsOrder(n, plan, i + 1, ctx, fuel)
    ensures vc == va + StepsOrder(n, plan, i, ctx, fuel)
  {
    Chain(va, vb, vc, x, StepsOrder(n, plan, i + 1, ctx, fuel));
  }

  /** `StepsJoin` for a step that walks one child. */
  lemma ChildStepJoin(n: Node, plan: seq<Step>, i: nat, ctx: Context, fuel: nat, va: seq<Visit>, vb: seq<Visit>, vc: seq<Visit>)
    requires i < |plan| && plan[i].Child? && plan[i].index < |n.children|
    requires vb == va + NodeOrder(n.children[plan[i].index], ctx, fuel)
    requires vc == vb + StepsOrder(n, plan, i + 1, ctx, fuel)
    ensures vc == va + StepsOrder(n, plan, i, ctx, fuel)
  {
    ChildOrderOne(n, plan[i].index, ctx, fuel);
    StepsJoin(n, plan, i, ctx, fuel, NodeOrder(n.children[plan[i].index], ctx, fuel), va, vb, vc);
  }

  /** `StepsJoin` for a step that walks the children from some index on. */
  lemma ChildrenStepJoin(n: Node, plan: seq<Step>, i: nat, ctx: Context, fuel: nat, va: seq<Visit>, vb: seq<Visit>, vc: seq<Visit>)
    requires i < |plan| && plan[i].ChildrenFrom?
    requires vb == va + ChildOrder(n, Range(plan[i].start, |n.children|), ctx, fuel)
    requires vc == vb + StepsOrder(n, plan, i + 1, ctx, fuel)
    ensures vc == va + StepsOrder(n, plan, i, ctx, fuel)
  {
    StepsJoin(n, plan, i, ctx, fuel, ChildOrder(n, Range(plan[i].start, |n.children|), ctx, fuel), va, vb, vc);
  }

  /** `StepsJoin` for the target step of an assignment. */
  lemma TargetStepJoin(n: Node, plan: seq<Step>, i: nat, ctx: Context, fuel: nat, va: seq<Visit>, vb: seq<Visit>, vc: seq<Visit>)
    requires i < |plan| && plan[i].AssignTarget? && 0 < |n.children|
    requires vb == va + TargetOrder(n.children[0], ctx, fuel)
    requires vc == vb + StepsOrder(n, plan, i + 1, ctx, fuel)
    ensures vc == va + StepsOrder(n, plan, i, ctx, fuel)
  {
    StepsJoin(n, plan, i, ctx, fuel, TargetOrder(n.children[0], ctx, fuel), va, vb, vc);
  }

  /** A step that walks one child enters its flattening, and the rest of
      the plan follows. */
  lemma {:induction false} ChildStepVisits(h: Hooks, st: State, n: Node, ctx: Context, plan: seq<Step>, i: nat, fuel: nat)
    requires Passive(h) && i < |plan| && plan[i].Child?
    ensures var r := RunPlan(h, st, n, ctx, ctx, plan, i, fuel);
      r.out.Normal? ==> Visits(r.st.trace) == Visits(st.trace) + StepsOrder(n, plan, i, ctx, fuel)
    decreases fuel, 3, n, 1, |plan| - i, 0
  {
    var k := plan[i].index;
    if k < |n.children| {
      var child := n.children[k];
      ChildStepShape(h, st, n, ctx, plan, i, fuel);
      NodeVisits(h, st, child, ctx, fuel);
      var r1 := WalkNode(h, st, child, ctx, fuel);
      if r1.out.Normal? {
        var r := RunPlan(h, r1.st, n, ctx, ctx, plan, i + 1, fuel);
        PlanStepsVisits(h, r1.st, n, ctx, plan, i + 1, fuel);
        if r.out.Normal? {
          ChildStepJoin(n, plan, i, ctx, fuel, Visits(st.trace), Visits(r1.st.trace), Visits(r.st.trace));
        }
      }
    }
  }

  /** A step that walks the children from some index on enters their
      flattenings, and the rest of the plan follows. */
  lemma {:induction false} ChildrenStepVisits(h: Hooks, st: State, n: Node, ctx: Context, plan: seq<Step>, i: nat, fuel: nat)
    requires Passive(h) && i < |plan| && plan[i].ChildrenFrom?
    ensures var r := RunPlan(h, st, n, ctx, ctx, plan, i, fuel);
      r.out.Normal? ==> Visits(r.st.trace) == Visits(st.trace) + StepsOrder(n, plan, i, ctx, fuel)
    decreases fuel, 3, n, 1, |plan| - i, 0
  {
    var s := plan[i].start;
    ChildrenStepShape(h, st, n, ctx, plan, i, fuel);
    ChildrenVisits(h, st, n, s, ctx, fuel);
    var r1 := WalkChildren(h, st, n, s, ctx, fuel);
    if r1.out.Normal? {
      var r := RunPlan(h, r1.st, n, ctx, ctx, plan, i + 1, fuel);
      PlanStepsVisits(h, r1.st, n, ctx, plan, i + 1, fuel);
      if r.out.Normal? {
        ChildrenStepJoin(n, plan, i, ctx, fuel, Visits(st.trace), Visits(r1.st.trace), Visits(r.st.trace));
      }
    }
  }

  /** The step that walks child `k` goes on with the plan unless the
      child's walk fails. */
  lemma ChildStepShape(h: Hooks, st: State, n: Node, ctx: Context, plan: seq<Step>, i: nat, fuel: nat)
    requires i < |plan| && plan[i].Child? && plan[i].index < |n.children|
    ensures var r1 := WalkNode(h, st, n.children[plan[i].index], ctx, fuel);
      RunPlan(h, st, n, ctx, ctx, plan, i, fuel)
        == if r1.out.Fatal? then r1 else RunPlan(h, r1.st, n, ctx, ctx, plan, i + 1, fuel)
  {
    assert plan[i] == Child(plan[i].index, plan[i].sel);
  }

  /** The step that walks the children from `start` on goes on with the
      plan unless one of their walks fails. */
  lemma ChildrenStepShape(h: Hooks, st: State, n: Node, ctx: Context, plan: seq<Step>, i: nat, fuel: nat)
    requires i < |plan| && plan[i].ChildrenFrom?
    ensures var r1 := WalkChildren(h, st, n, plan[i].start, ctx, fuel);
      RunPlan(h, st, n, ctx, ctx, plan, i, fuel)
        == if r1.out.Fatal? then r1 else RunPlan(h, r1.st, n, ctx, ctx, plan, i + 1, fuel)
  {
    assert plan[i] == ChildrenFrom(plan[i].start);
  }

  /** The target step of an assignment enters the target's flattening
      unless a hook handled the assignment, and the rest of the plan
      follows. */
  lemma {:induction false} TargetStepVisits(h: Hooks, st: State, n: Node, ctx: Context, plan: seq<Step>, i: nat, fuel: nat)
    requires Passive(h) && i < |plan| && plan[i].AssignTarget?
    ensures var r := RunPlan(h, st, n, ctx, ctx, plan, i, fuel);
      r.out.Normal? ==> Visits(r.st.trace) == Visits(st.trace) + StepsOrder(n, plan, i, ctx, fuel)
    decreases fuel, 3, n, 1, |plan| - i, 0
  {
    if 2 <= |n.children| {
      TargetStepShape(h, st, n, ctx, plan, i, fuel);
      AssignVisits(h, st, n.children[0], ctx, n.children[1], n, fuel);
      var a := WalkAssign(h, st, n.children[0], ctx, n.children[1], n, fuel);
      if a.status.Declined? {
        PlanStepsVisits(h, a.st, n, ctx, plan, i + 1, fuel);
        var r := RunPlan(h, a.st, n, ctx, ctx, plan, i + 1, fuel);
        if r.out.Normal? {
          TargetStepJoin(n, plan, i, ctx, fuel, Visits(st.trace), Visits(a.st.trace), Visits(r.st.trace));
        }
      }
    }
  }

  /** The target step hands the first child to the lvalue dispatch and
      goes on with the plan when the dispatch declines. */
  lemma TargetStepShape(h: Hooks, st: State, n: Node, ctx: Context, plan: seq<Step>, i: nat, fuel: nat)
    requires i < |plan| && plan[i].AssignTarget? && 2 <= |n.children|
    ensures var a := WalkAssign(h, st, n.children[0], ctx, n.children[1], n, fuel);
      RunPlan(h, st, n, ctx, ctx, plan, i, fuel)
        == if a.status.Handled? then Run(a.st, Normal)
           else if a.status.AssignFailed? then Run(a.st, Fatal(a.status.failure))
           else RunPlan(h, a.st, n, ctx, ctx, plan, i + 1, fuel)
  {
    assert plan[i] == AssignTarget;
  }

  /** A step that fires an event and enters nothing, then the steps after
      it, make the steps from `i` on. */
  lemma QuietJoin(n: Node, plan: seq<Step>, i: nat, ctx: Context, fuel: nat, va: seq<Visit>, vb: seq<Visit>, vc: seq<Visit>)
    requires i < |plan| && StepOrder(n, plan[i], ctx, fuel) == []
    requires vb == va && vc == vb + StepsOrder(n, plan, i + 1, ctx, fuel)
    ensures vc == va + StepsOrder(n, plan, i, ctx, fuel)
  {
    assert [] + StepsOrder(n, plan, i + 1, ctx, fuel) == StepsOrder(n, plan, i + 1, ctx, fuel);
  }

  /** A step that only fires a hook enters nothing, and the rest of the
      plan follows. */
  lemma {:induction false} FireStepVisits(h: Hooks, st: State, n: Node, ctx: Context, plan: seq<Step>, i: nat, fuel: nat)
    requires Passive(h) && i < |plan| && (plan[i].VisitHook? || plan[i].MidHook? || plan[i].Leave?)
    ensures var r := RunPlan(h, st, n, ctx, ctx, plan, i, fuel);
      r.out.Normal? ==> Visits(r.st.trace) == Visits(st.trace) + StepsOrder(n, plan, i, ctx, fuel)
    decreases fuel, 3, n, 1, |plan| - i, 0
  {
    var ev := match plan[i]
      case VisitHook => VisitNode(n, ctx)
      case MidHook(m) => MidNode(n, m, ctx)
      case _ => LeaveNode(n, ctx);
    assert !h.answer(st.trace, ev);
    var s1 := st.Fire(ev);
    assert RunPlan(h, st, n, ctx, ctx, plan, i, fuel) == RunPlan(h, s1, n, ctx, ctx, plan, i + 1, fuel);
    VisitsQuiet(st, ev);
    PlanStepsVisits(h, s1, n, ctx, plan, i + 1, fuel);
    var r := RunPlan(h, s1, n, ctx, ctx, plan, i + 1, fuel);
    if r.out.Normal? {
      QuietJoin(n, plan, i, ctx, fuel, Visits(st.trace), Visits(s1.trace), Visits(r.st.trace));
    }
  }

  /** A step that makes a context enters nothing, and with passive hooks
      the context stays the same, so the rest of the plan follows. */
  lemma {:induction false} ContextStepVisits(h: Hooks, st: State, n: Node, ctx: Context, plan: seq<Step>, i: nat, fuel: nat)
    requires Passive(h) && i < |plan| && (plan[i].MakeLocal? || plan[i].MakeUnwind?)
    ensures var r := RunPlan(h, st, n, ctx, ctx, plan, i, fuel);
      r.out.Normal? ==> Visits(r.st.trace) == Visits(st.trace) + StepsOrder(n, plan, i, ctx, fuel)
    decreases fuel, 3, n, 1, |plan| - i, 0
  {
    if plan[i].MakeLocal? || 1 < |n.children| {
      var ev := if plan[i].MakeLocal? then MakeLocalContext(n, ctx) else MakeUnwindContext(n.children[1], ctx);
      assert h.make(st.trace, ev) == ctx;
      var s1 := st.Fire(ev);
      assert RunPlan(h, st, n, ctx, ctx, plan, i, fuel) == RunPlan(h, s1, n, ctx, ctx, plan, i + 1, fuel);
      VisitsQuiet(st, ev);
      PlanStepsVisits(h, s1, n, ctx, plan, i + 1, fuel);
      var r := RunPlan(h, s1, n, ctx, ctx, plan, i + 1, fuel);
      if r.out.Normal? {
        QuietJoin(n, plan, i, ctx, fuel, Visits(st.trace), Visits(s1.trace), Visits(r.st.trace));
      }
    }
  }

  /** With passive hooks, the extension step and a halt both end the walk
      in a failure. */
  lemma HaltStepFails(h: Hooks, st: State, n: Node, ctx: Context, plan: seq<Step>, i: nat, fuel: nat)
    requires Passive(h) && i < |plan| && (plan[i].Extension? || plan[i].Halt?)
    ensures RunPlan(h, st, n, ctx, ctx, plan, i, fuel).out.Fatal?
  {
    if plan[i].Extension? {
      assert !h.answer(st.trace, DoVisit(n, ctx));
    }
  }

  /** The children from `i` on: child `i`, then the rest. */
  lemma ChildOrderFrom(n: Node, i: nat, ctx: Context, fuel: nat)
    requires i < |n.children|
    ensures ChildOrder(n, Range(i, |n.children|), ctx, fuel)
      == NodeOrder(n.children[i], ctx, fuel) + ChildOrder(n, Range(i + 1, |n.children|), ctx, fuel)
  {
    var rest := Range(i + 1, |n.children|);
    assert Range(i, |n.children|) == [i] + rest;
    assert ([i] + rest)[0] == i && ([i] + rest)[1..] == rest;
  }

  /** The single child `k` of `n`, when there is one. */
  lemma ChildOrderOne(n: Node, k: nat, ctx: Context, fuel: nat)
    requires k < |n.children|
    ensures ChildOrder(n, [k], ctx, fuel) == NodeOrder(n.children[k], ctx, fuel)
  {
    assert [k][0] == k && [k][1..] == [];
    assert ChildOrder(n, [], ctx, fuel) == [];
  }

  lemma {:induction false} ChildrenVisits(h: Hooks, st: State, n: Node, i: nat, ctx: Context, fuel: nat)
    requires Passive(h)
    ensures var r := WalkChildren(h, st, n, i, ctx, fuel);
      r.out.Normal? ==> Visits(r.st.trace) == Visits(st.trace) + ChildOrder(n, Range(i, |n.children|), ctx, fuel)
    decreases fuel, 3, n, 0, if i <= |n.children| then |n.children| - i else 0
  {
    var c := |n.children|;
    if i >= c {
      assert Range(i, c) == [];
      assert ChildOrder(n, [], ctx, fuel) == [];
    } else {
      NodeVisits(h, st, n.children[i], ctx, fuel);
      var r := WalkNode(h, st, n.children[i], ctx, fuel);
      if r.out.Normal? {
        ChildrenVisits(h, r.st, n, i + 1, ctx, fuel);
        var r2 := WalkChildren(h, r.st, n, i + 1, ctx, fuel);
        if r2.out.Normal? {
          ChildrenJoin(n, i, ctx, fuel, Visits(st.trace), Visits(r.st.trace), Visits(r2.st.trace));
        }
      }
    }
  }

  /** Child `i`, then the children after it, make the children from `i`
      on. */
  lemma ChildrenJoin(n: Node, i: nat, ctx: Context, fuel: nat, va: seq<Visit>, vb: seq<Visit>, vc: seq<Visit>)
    requires i < |n.children|
    requires vb == va + NodeOrder(n.children[i], ctx, fuel)
    requires vc == vb + ChildOrder(n, Range(i + 1, |n.children|), ctx, fuel)
    ensures vc == va + ChildOrder(n, Range(i, |n.children|), ctx, fuel)
  {
    ChildOrderFrom(n, i, ctx, fuel);
    Chain(va, vb, vc, NodeOrder(n.children[i], ctx, fuel), ChildOrder(n, Range(i + 1, |n.children|), ctx, fuel));
  }

  /** Under passive hooks the lvalue dispatch never reports the target as
      handled, and when it completes it has entered the target's
      flattening. */
  lemma {:induction false} AssignVisits(h: Hooks, st: State, t: Node, ctx: Context, v: Node, a: Node, fuel: nat)
    requires Passive(h)
    ensures var r := WalkAssign(h, st, t, ctx, v, a, fuel);
      !r.status.Handled? && (r.status.Declined? ==> Visits(r.st.trace) == Visits(st.trace) + TargetOrder(t, ctx, fuel))
    decreases fuel, 3, t, 2
  {
    var mode := ModeOf(a);
    var hv := VisitLvalue(t, v, a, mode, ctx);
    var leave := LeaveLvalue(t, v, a, mode, ctx);
    var s1 := st.Fire(hv);
    assert !h.answer(st.trace, hv);
    VisitsQuiet(st, hv);
    if t.kind == ArrayRef {
      ArrayTargetVisits(h, st, t, ctx, v, a, fuel);
    } else if t.kind == ObjectRef {
      ObjectTargetVisits(h, st, t, ctx, v, a, fuel);
    } else if t.kind == BlockExpr {
      if |t.children| > 0 {
        AssignVisits(h, s1, t.children[|t.children| - 1], ctx, v, a, fuel);
        var r := WalkAssign(h, s1, t.children[|t.children| - 1], ctx, v, a, fuel);
        VisitsQuiet(r.st, leave);
      }
    } else if t.kind == Var {
      VisitsQuiet(s1, leave);
    } else {
      assert !h.answer(st.trace, DoVisitAssignNodes(t, v, a, ctx));
    }
  }

  /** The ARRAY_REF case of `AssignVisits`. */
  lemma {:induction false} ArrayTargetVisits(h: Hooks, st: State, t: Node, ctx: Context, v: Node, a: Node, fuel: nat)
    requires Passive(h) && t.kind == ArrayRef
    ensures var r := WalkAssign(h, st, t, ctx, v, a, fuel);
      !r.status.Handled? && (r.status.Declined? ==> Visits(r.st.trace) == Visits(st.trace) + TargetOrder(t, ctx, fuel))
    decreases fuel, 3, t, 1, 0
  {
    var mode := ModeOf(a);
    var hv := VisitLvalue(t, v, a, mode, ctx);
    assert !h.answer(st.trace, hv);
    if |t.children| > 0 {
      ArrayTargetShape(h, st, t, ctx, v, a, fuel);
      VisitsQuiet(st, hv);
      ArrayTargetTail(h, st.Fire(hv), t, ctx, LeaveLvalue(t, v, a, mode, ctx), fuel);
    }
  }

  /** Under passive hooks an ARRAY_REF target walks the array, then the
      indices, then leaves. */
  lemma ArrayTargetShape(h: Hooks, st: State, t: Node, ctx: Context, v: Node, a: Node, fuel: nat)
    requires Passive(h) && t.kind == ArrayRef && |t.children| > 0
    ensures var mode := ModeOf(a);
      var r := WalkNode(h, st.Fire(VisitLvalue(t, v, a, mode, ctx)), t.children[0], ctx, fuel);
      var r2 := WalkChildren(h, r.st, t, 2, ctx, fuel);
      WalkAssign(h, st, t, ctx, v, a, fuel)
        == if r.out.Fatal? then AssignRun(r.st, AssignFailed(r.out.failure))
           else if r2.out.Fatal? then AssignRun(r2.st, AssignFailed(r2.out.failure))
           else AssignRun(r2.st.Fire(LeaveLvalue(t, v, a, mode, ctx)), Declined)
  {
    assert !h.answer(st.trace, VisitLvalue(t, v, a, ModeOf(a), ctx));
  }

  /** The array and the indices of an ARRAY_REF target, then the leave
      hook. */
  lemma {:induction false} ArrayTargetTail(h: Hooks, s: State, t: Node, ctx: Context, leave: Event, fuel: nat)
    requires Passive(h) && t.kind == ArrayRef && |t.children| > 0 && leave.LeaveLvalue?
    ensures var r := WalkNode(h, s, t.children[0], ctx, fuel);
      var r2 := WalkChildren(h, r.st, t, 2, ctx, fuel);
      r.out.Normal? && r2.out.Normal? ==>
        Visits(r2.st.Fire(leave).trace) == Visits(s.trace) + TargetOrder(t, ctx, fuel)
    decreases fuel, 3, t, 0, |t.children| + 1
  {
    var c0 := t.children[0];
    NodeVisits(h, s, c0, ctx, fuel);
    var r := WalkNode(h, s, c0, ctx, fuel);
    if r.out.Normal? {
      ChildrenVisits(h, r.st, t, 2, ctx, fuel);
      var r2 := WalkChildren(h, r.st, t, 2, ctx, fuel);
      if r2.out.Normal? {
        ArrayTargetJoin(t, ctx, fuel, Visits(s.trace), Visits(r.st.trace), Visits(r2.st.trace));
        VisitsQuiet(r2.st, leave);
      }
    }
  }

  /** The array, then the indices, make an ARRAY_REF target. */
  lemma ArrayTargetJoin(t: Node, ctx: Context, fuel: nat, va: seq<Visit>, vb: seq<Visit>, vc: seq<Visit>)
    requires t.kind == ArrayRef && |t.children| > 0
    requires vb == va + NodeOrder(t.children[0], ctx, fuel)
    requires vc == vb + ChildOrder(t, Range(2, |t.children|), ctx, fuel)
    ensures vc == va + TargetOrder(t, ctx, fuel)
  {
    var rest := Range(2, |t.children|);
    assert ([0] + rest)[0] == 0 && ([0] + rest)[1..] == rest;
    assert TargetOrder(t, ctx, fuel) == NodeOrder(t.children[0], ctx, fuel) + ChildOrder(t, rest, ctx, fuel);
    Chain(va, vb, vc, NodeOrder(t.children[0], ctx, fuel), ChildOrder(t, rest, ctx, fuel));
  }

  /** The object alone makes an OBJECT_REF target. */
  lemma ObjectTargetJoin(t: Node, ctx: Context, fuel: nat, va: seq<Visit>, vb: seq<Visit>)
    requires t.kind == ObjectRef && |t.children| > 0
    requires vb == va + NodeOrder(t.children[0], ctx, fuel)
    ensures vb == va + TargetOrder(t, ctx, fuel)
  {
    ChildOrderOne(t, 0, ctx, fuel);
  }

  /** The OBJECT_REF case of `AssignVisits`. */
  lemma {:induction false} ObjectTargetVisits(h: Hooks, st: State, t: Node, ctx: Context, v: Node, a: Node, fuel: nat)
    requires Passive(h) && t.kind == ObjectRef
    ensures var r := WalkAssign(h, st, t, ctx, v, a, fuel);
      !r.status.Handled? && (r.status.Declined? ==> Visits(r.st.trace) == Visits(st.trace) + TargetOrder(t, ctx, fuel))
    decreases fuel, 3, t, 1, 0
  {
    var mode := ModeOf(a);
    var hv := VisitLvalue(t, v, a, mode, ctx);
    assert !h.answer(st.trace, hv);
    if |t.children| > 0 {
      ObjectTargetShape(h, st, t, ctx, v, a, fuel);
      VisitsQuiet(st, hv);
      ObjectTargetTail(h, st.Fire(hv), t, ctx, LeaveLvalue(t, v, a, mode, ctx), fuel);
    }
  }

  /** Under passive hooks an OBJECT_REF target walks the object, then
      leaves. */
  lemma ObjectTargetShape(h: Hooks, st: State, t: Node, ctx: Context, v: Node, a: Node, fuel: nat)
    requires Passive(h) && t.kind == ObjectRef && |t.children| > 0
    ensures var mode := ModeOf(a);
      var r := WalkNode(h, st.Fire(VisitLvalue(t, v, a, mode, ctx)), t.children[0], ctx, fuel);
      WalkAssign(h, st, t, ctx, v, a, fuel)
        == if r.out.Fatal? then AssignRun(r.st, AssignFailed(r.out.failure))
           else AssignRun(r.st.Fire(LeaveLvalue(t, v, a, mode, ctx)), Declined)
  {
    assert !h.answer(st.trace, VisitLvalue(t, v, a, ModeOf(a), ctx));
  }

  /** The object of an OBJECT_REF target, then the leave hook. */
  lemma {:induction false} ObjectTargetTail(h: Hooks, s: State, t: Node, ctx: Context, leave: Event, fuel: nat)
    requires Passive(h) && t.kind == ObjectRef && |t.children| > 0 && leave.LeaveLvalue?
    ensures var r := WalkNode(h, s, t.children[0], ctx, fuel);
      r.out.Normal? ==> Visits(r.st.Fire(leave).trace) == Visits(s.trace) + TargetOrder(t, ctx, fuel)
    decreases fuel, 3, t, 0, 0
  {
    var c0 := t.children[0];
    NodeVisits(h, s, c0, ctx, fuel);
    var r := WalkNode(h, s, c0, ctx, fuel);
    if r.out.Normal? {
      ObjectTargetJoin(t, ctx, fuel, Visits(s.trace), Visits(r.st.trace));
      VisitsQuiet(r.st, leave);
    }
  }
}
