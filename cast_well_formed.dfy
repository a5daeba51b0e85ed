/**
 * The structural contract a front end owes the walker: every node has the
 * number of children its kind expects, and every assignment has a target of
 * one of the four lvalue shapes. A tree that keeps it is walked without any
 * fatal failure, whatever the hooks answer, as long as no context is set
 * (so no scoped entity is looked up).
 */
module CAstWellFormed {
  import opened Wrappers
  import opened CAstTree
  import opened CAstPlan
  import opened CAstWalk
  import opened CAstWalkGrowth

  /** An lvalue the assignment dispatcher handles on its own. */
  predicate TargetOk(t: Node)
    decreases t
  {
    match t.kind
    case ArrayRef => |t.children| >= 1
    case ObjectRef => |t.children| >= 1
    case BlockExpr => |t.children| >= 1 && TargetOk(t.children[|t.children| - 1])
    case Var => true
    case _ => false
  }

  /** The child count each kind's branch of `visit` relies on. */
  predicate ArityOk(n: Node)
  {
    var c := |n.children|;
    match n.kind
    case LocalScope => c >= 1
    case Loop => c >= 2
    case Call => c >= 1
    case BinaryExpr => c >= 3
    case UnaryExpr => c >= 2
    case Cast => c >= 2
    case InstanceOf => c >= 2
    case ArrayLength => c >= 1
    case ArrayRef => c >= 1
    case ObjectRef => c >= 1
    case Throw => c >= 1
    case Assert => c >= 1
    case EachElementGet => c >= 1
    case EachElementHasNext => c >= 1
    case TypeLiteralExpr => c >= 1
    case IfGoto => c == 1 || c == 3
    case LabelStmt => 1 <= c <= 2
    case IfStmt => c >= 2
    case IfExpr => c >= 2
    case ObjectLiteral => c % 2 == 1
    case ArrayLiteral => c >= 1
    case Assign => c >= 2 && TargetOk(n.children[0])
    case AssignPreOp => c >= 2 && TargetOk(n.children[0])
    case AssignPostOp => c >= 2 && TargetOk(n.children[0])
    case Switch => c >= 2
    case Unwind => c >= 2
    case Try => c >= 2
    case OtherNode(_) => false
    case _ => true
  }

  /** Every node of the tree keeps the arity contract. */
  predicate WellFormed(n: Node)
    decreases n
  {
    ArityOk(n) && forall i | 0 <= i < |n.children| :: WellFormed(n.children[i])
  }

  /** A step that cannot fail on its own for node `n`. */
  predicate StepFits(n: Node, s: Step)
  {
    match s
    case Child(k, _) => k < |n.children|
    case MakeUnwind => 1 < |n.children|
    case AssignTarget => 2 <= |n.children| && TargetOk(n.children[0])
    case Extension => false
    case Halt(_) => false
    case _ => true
  }

  lemma {:induction false} FieldInitsFit(n: Node, from: nat)
    requires (|n.children| - from) % 2 == 0
    ensures forall s | s in FieldInits(from, |n.children|) :: StepFits(n, s) && !s.AssignTarget?
    decreases |n.children| - from
  {
    if from < |n.children| {
      FieldInitsFit(n, from + 2);
    }
  }

  lemma {:induction false} ElementInitsFit(n: Node, from: nat)
    ensures forall s | s in ElementInits(from, |n.children|) :: StepFits(n, s) && !s.AssignTarget?
    decreases |n.children| - from
  {
    if from < |n.children| {
      ElementInitsFit(n, from + 1);
    }
  }

  /** With the arity contract kept, no step of the node's plan can fail by
      itself: every child it names exists and there is no halt. */
  lemma PlanFits(n: Node)
    requires ArityOk(n)
    ensures forall s | s in Plan(n) :: StepFits(n, s)
  {
    if n.kind == ObjectLiteral {
      FieldInitsFit(n, 1);
    } else if n.kind == ArrayLiteral {
      ElementInitsFit(n, 1);
    } else if n.kind in {DeclStmt, Return, IfGoto, LabelStmt, IfStmt, IfExpr, Assign, AssignPreOp, AssignPostOp} {
      CountedPlanFits(n);
    } else {
      FixedPlanFits(n);
    }
  }

  /** The kinds whose plan depends on the child count, and the
      assignments. */
  lemma CountedPlanFits(n: Node)
    requires ArityOk(n)
    requires n.kind in {DeclStmt, Return, IfGoto, LabelStmt, IfStmt, IfExpr, Assign, AssignPreOp, AssignPostOp}
    ensures forall s | s in Plan(n) :: StepFits(n, s)
  {
  }

  /** The kinds whose plan is the same for every child count. */
  lemma FixedPlanFits(n: Node)
    requires ArityOk(n)
    requires n.kind !in {ObjectLiteral, ArrayLiteral, DeclStmt, Return, IfGoto, LabelStmt, IfStmt, IfExpr, Assign, AssignPreOp, AssignPostOp}
    ensures forall s | s in Plan(n) :: StepFits(n, s)
  {
  }

  /** The arity contract is all the walker needs: on a well-formed tree,
      with the make*Context hooks keeping the (absent) context, `visit` never
      aborts, whatever the other hooks answer. */
  lemma {:induction false} NodeNoFail(h: Hooks, st: State, n: Node, fuel: nat)
    requires KeepsContext(h) && WellFormed(n)
    ensures WalkNode(h, st, n, NullContext, fuel).out.Normal?
    decreases n, 2
  {
    var enter := EnterNode(n, NullContext);
    if !h.answer(st.trace, enter) {
      PlanFits(n);
      PlanNoFail(h, st.Fire(enter), n, Plan(n), 0, fuel);
    }
  }

  lemma {:induction false} PlanNoFail(h: Hooks, st: State, n: Node, plan: seq<Step>, i: nat, fuel: nat)
    requires KeepsContext(h) && WellFormed(n)
    requires i <= |plan| && forall s | s in plan :: StepFits(n, s)
    ensures RunPlan(h, st, n, NullContext, NullContext, plan, i, fuel).out.Normal?
    decreases n, 1, |plan| - i, 1
  {
    if i < |plan| {
      if plan[i].Child? || plan[i].ChildrenFrom? || plan[i].AssignTarget? {
        NestedStepNoFail(h, st, n, plan, i, fuel);
      } else {
        HookStepNoFail(h, st, n, plan, i, fuel);
      }
    }
  }

  /** A fitting step that walks children completes normally, and so does
      the rest of the plan after it. */
  lemma {:induction false} NestedStepNoFail(h: Hooks, st: State, n: Node, plan: seq<Step>, i: nat, fuel: nat)
    requires KeepsContext(h) && WellFormed(n)
    requires i < |plan| && (plan[i].Child? || plan[i].ChildrenFrom? || plan[i].AssignTarget?) && forall s | s in plan :: StepFits(n, s)
    ensures RunPlan(h, st, n, NullContext, NullContext, plan, i, fuel).out.Normal?
    decreases n, 1, |plan| - i, 0
  {
    var ctx := NullContext;
    assert StepFits(n, plan[i]);
    match plan[i]
    case Child(k, sel) =>
      NodeNoFail(h, st, n.children[k], fuel);
      PlanNoFail(h, WalkNode(h, st, n.children[k], ctx, fuel).st, n, plan, i + 1, fuel);
    case ChildrenFrom(s) =>
      ChildrenNoFail(h, st, n, s, fuel);
      PlanNoFail(h, WalkChildren(h, st, n, s, ctx, fuel).st, n, plan, i + 1, fuel);
    case AssignTarget =>
      AssignNoFail(h, st, n.children[0], n.children[1], n, fuel);
      var a := WalkAssign(h, st, n.children[0], ctx, n.children[1], n, fuel);
      if a.status.Declined? {
        PlanNoFail(h, a.st, n, plan, i + 1, fuel);
      }
  }

  /** A fitting step that only fires an event completes normally, and so
      does the rest of the plan after it. */
  lemma {:induction false} HookStepNoFail(h: Hooks, st: State, n: Node, plan: seq<Step>, i: nat, fuel: nat)
    requires KeepsContext(h) && WellFormed(n)
    requires i < |plan| && !(plan[i].Child? || plan[i].ChildrenFrom? || plan[i].AssignTarget?) && forall s | s in plan :: StepFits(n, s)
    ensures RunPlan(h, st, n, NullContext, NullContext, plan, i, fuel).out.Normal?
    decreases n, 1, |plan| - i, 0
  {
    var ctx := NullContext;
    assert StepFits(n, plan[i]);
    match plan[i]
    case VisitHook =>
      var v := VisitNode(n, ctx);
      if !h.answer(st.trace, v) {
        PlanNoFail(h, st.Fire(v), n, plan, i + 1, fuel);
      }
    case MidHook(m) =>
      PlanNoFail(h, st.Fire(MidNode(n, m, ctx)), n, plan, i + 1, fuel);
    case Leave =>
      PlanNoFail(h, st.Fire(LeaveNode(n, ctx)), n, plan, i + 1, fuel);
    case MakeLocal =>
      var mk := MakeLocalContext(n, ctx);
      assert h.make(st.trace, mk) == ctx;
      PlanNoFail(h, st.Fire(mk), n, plan, i + 1, fuel);
    case MakeUnwind =>
      var mk := MakeUnwindContext(n.children[1], ctx);
      assert h.make(st.trace, mk) == ctx;
      PlanNoFail(h, st.Fire(mk), n, plan, i + 1, fuel);
  }

  lemma {:induction false} ChildrenNoFail(h: Hooks, st: State, n: Node, i: nat, fuel: nat)
    requires KeepsContext(h) && WellFormed(n)
    ensures WalkChildren(h, st, n, i, NullContext, fuel).out.Normal?
    decreases n, 0, if i <= |n.children| then |n.children| - i else 0
  {
    if i < |n.children| {
      NodeNoFail(h, st, n.children[i], fuel);
      ChildrenNoFail(h, WalkNode(h, st, n.children[i], NullContext, fuel).st, n, i + 1, fuel);
    }
  }

  lemma {:induction false} AssignNoFail(h: Hooks, st: State, t: Node, v: Node, a: Node, fuel: nat)
    requires KeepsContext(h) && WellFormed(t) && TargetOk(t)
    ensures !WalkAssign(h, st, t, NullContext, v, a, fuel).status.AssignFailed?
    decreases t, 3
  {
    var ctx := NullContext;
    var hv := VisitLvalue(t, v, a, ModeOf(a), ctx);
    if !h.answer(st.trace, hv) {
      match t.kind
      case ArrayRef =>
        NodeNoFail(h, st.Fire(hv), t.children[0], fuel);
        ChildrenNoFail(h, WalkNode(h, st.Fire(hv), t.children[0], ctx, fuel).st, t, 2, fuel);
      case ObjectRef =>
        NodeNoFail(h, st.Fire(hv), t.children[0], fuel);
      case BlockExpr =>
        AssignNoFail(h, st.Fire(hv), t.children[|t.children| - 1], v, a, fuel);
      case Var =>
    }
  }
}
