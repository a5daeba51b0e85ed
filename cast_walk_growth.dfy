/**
 * What every walk preserves: it only appends hook calls and only adds
 * parent entries; and when every make*Context returns its context argument
 * (as the base class's defaults do), every hook of the walk receives the
 * context the walk started with.
 */
module CAstWalkGrowth {
  import opened Wrappers
  import opened CAstTree
  import opened CAstPlan
  import opened CAstWalk

  /** Every make*Context returns the context it was given. */
  ghost predicate KeepsContext(h: Hooks)
  {
    forall history, ev :: h.make(history, ev) == ContextOf(ev)
  }

  /** The hook call `ev` received `ctx` as its context, and as its derived
      context too where it has one. */
  ghost predicate Under(ev: Event, ctx: Context)
  {
    ContextOf(ev) == ctx && ((ev.VisitEntity? || ev.LeaveEntity?) ==> ev.inner == ctx)
  }

  /** `b` extends `a`: the trace only grew, no parent entry disappeared, and
      when `h` keeps contexts, every new hook call is under `ctx`. */
  ghost predicate Grows(h: Hooks, a: State, b: State, ctx: Context)
  {
    && a.trace <= b.trace
    && a.parents.Keys <= b.parents.Keys
    && (KeepsContext(h) ==> forall k | |a.trace| <= k < |b.trace| :: Under(b.trace[k], ctx))
  }

  lemma GrowsTrans(h: Hooks, a: State, b: State, c: State, ctx: Context)
    requires Grows(h, a, b, ctx) && Grows(h, b, c, ctx)
    ensures Grows(h, a, c, ctx)
  {
    if KeepsContext(h) {
      forall k | |a.trace| <= k < |c.trace| ensures Under(c.trace[k], ctx) {
        if k < |b.trace| {
          assert c.trace[k] == b.trace[k];
        }
      }
    }
  }

  lemma GrowsFire(h: Hooks, a: State, ev: Event, ctx: Context)
    requires KeepsContext(h) ==> Under(ev, ctx)
    ensures Grows(h, a, a.Fire(ev), ctx)
  {
  }

  lemma {:induction false} EntityGrows(h: Hooks, st: State, e: Entity, ctx: Context, fuel: nat)
    ensures Grows(h, st, WalkEntity(h, st, e, ctx, fuel).st, ctx)
    decreases fuel, 0, 1
  {
    if fuel > 0 {
      var enter := EnterEntity(e, ctx);
      GrowsFire(h, st, enter, ctx);
      if !h.answer(st.trace, enter) {
        var s1 := st.Fire(enter);
        BodyGrows(h, s1, e, ctx, fuel);
        var r := EntityBody(h, s1, e, ctx, fuel);
        GrowsTrans(h, st, s1, r.st, ctx);
        if !r.out.Fatal? {
          GrowsFire(h, r.st, PostProcessEntity(e, ctx), ctx);
          GrowsTrans(h, st, r.st, r.st.Fire(PostProcessEntity(e, ctx)), ctx);
        }
      }
    }
  }

  lemma {:induction false} BodyGrows(h: Hooks, st: State, e: Entity, ctx: Context, fuel: nat)
    requires fuel > 0
    ensures Grows(h, st, EntityBody(h, st, e, ctx, fuel).st, ctx)
    decreases fuel, 0, 0, 1
  {
    match e.kind
    case FileEntity => ContainerGrows(h, st, e, ctx, fuel);
    case TypeEntity => ContainerGrows(h, st, e, ctx, fuel);
    case FunctionEntity => CodeGrows(h, st, e, ctx, fuel);
    case ScriptEntity => CodeGrows(h, st, e, ctx, fuel);
    case FieldEntity =>
      var v := VisitEntity(e, ctx, ctx);
      GrowsFire(h, st, v, ctx);
      GrowsFire(h, st.Fire(v), LeaveEntity(e, ctx, ctx), ctx);
      GrowsTrans(h, st, st.Fire(v), st.Fire(v).Fire(LeaveEntity(e, ctx, ctx)), ctx);
    case OtherEntity(_) => GrowsFire(h, st, DoVisitEntity(e, ctx), ctx);
  }

  lemma {:induction false} ContainerGrows(h: Hooks, st: State, e: Entity, ctx: Context, fuel: nat)
    requires fuel > 0
    ensures Grows(h, st, ContainerBody(h, st, e, ctx, fuel).st, ctx)
    decreases fuel, 0, 0, 0
  {
    var mk := MakeEntityContext(e, ctx);
    var inner := h.make(st.trace, mk);
    var s1 := st.Fire(mk);
    var v := VisitEntity(e, ctx, inner);
    var s2 := s1.Fire(v);
    GrowsFire(h, st, mk, ctx);
    GrowsFire(h, s1, v, ctx);
    GrowsTrans(h, st, s1, s2, ctx);
    if !h.answer(s1.trace, v) {
      ScopedAllGrows(h, s2, e, e.scopes, 0, inner, fuel - 1);
      var r := WalkScopedAll(h, s2, e, e.scopes, 0, inner, fuel - 1);
      GrowsTrans(h, st, s2, r.st, ctx);
      if !r.out.Fatal? {
        GrowsFire(h, r.st, LeaveEntity(e, ctx, inner), ctx);
        GrowsTrans(h, st, r.st, r.st.Fire(LeaveEntity(e, ctx, inner)), ctx);
      }
    }
  }

  lemma {:induction false} CodeGrows(h: Hooks, st: State, e: Entity, ctx: Context, fuel: nat)
    requires fuel > 0
    ensures Grows(h, st, CodeBody(h, st, e, ctx, fuel).st, ctx)
    decreases fuel, 0, 0, 0
  {
    var mk := MakeEntityContext(e, ctx);
    var inner := h.make(st.trace, mk);
    var s1 := st.Fire(mk);
    var v := VisitEntity(e, ctx, inner);
    var s2 := s1.Fire(v);
    GrowsFire(h, st, mk, ctx);
    GrowsFire(h, s1, v, ctx);
    GrowsTrans(h, st, s1, s2, ctx);
    if !h.answer(s1.trace, v) {
      var r1 := if e.ast.Some? then WalkNode(h, s2, e.ast.value, inner, fuel - 1) else Run(s2, Normal);
      if e.ast.Some? {
        NodeGrows(h, s2, e.ast.value, inner, fuel - 1);
      }
      GrowsTrans(h, st, s2, r1.st, ctx);
      if !r1.out.Fatal? {
        ScopedListGrows(h, r1.st, e, ScopedAt(e, Global), 0, inner, fuel - 1);
        var r2 := WalkScopedList(h, r1.st, e, ScopedAt(e, Global), 0, inner, fuel - 1);
        GrowsTrans(h, st, r1.st, r2.st, ctx);
        if !r2.out.Fatal? {
          GrowsFire(h, r2.st, LeaveEntity(e, ctx, inner), ctx);
          GrowsTrans(h, st, r2.st, r2.st.Fire(LeaveEntity(e, ctx, inner)), ctx);
        }
      }
    }
  }

  lemma {:induction false} ScopedAllGrows(h: Hooks, st: State, parent: Entity, scopes: seq<Scope>, j: nat, ctx: Context, fuel: nat)
    requires j <= |scopes|
    ensures Grows(h, st, WalkScopedAll(h, st, parent, scopes, j, ctx, fuel).st, ctx)
    decreases fuel, 2, |scopes| - j
  {
    if j < |scopes| {
      ScopedListGrows(h, st, parent, scopes[j].members, 0, ctx, fuel);
      var r := WalkScopedList(h, st, parent, scopes[j].members, 0, ctx, fuel);
      if !r.out.Fatal? {
        ScopedAllGrows(h, r.st, parent, scopes, j + 1, ctx, fuel);
        GrowsTrans(h, st, r.st, WalkScopedAll(h, r.st, parent, scopes, j + 1, ctx, fuel).st, ctx);
      }
    }
  }

  lemma {:induction false} ScopedListGrows(h: Hooks, st: State, parent: Entity, list: seq<Entity>, i: nat, ctx: Context, fuel: nat)
    requires i <= |list|
    ensures Grows(h, st, WalkScopedList(h, st, parent, list, i, ctx, fuel).st, ctx)
    decreases fuel, 1, |list| - i
  {
    if i < |list| {
      var s1 := st.(parents := st.parents[list[i] := parent]);
      EntityGrows(h, s1, list[i], ctx, fuel);
      var r := WalkEntity(h, s1, list[i], ctx, fuel);
      GrowsTrans(h, st, s1, r.st, ctx);
      if !r.out.Fatal? {
        ScopedListGrows(h, r.st, parent, list, i + 1, ctx, fuel);
        GrowsTrans(h, st, r.st, WalkScopedList(h, r.st, parent, list, i + 1, ctx, fuel).st, ctx);
      }
    }
  }

  lemma {:induction false} NodeGrows(h: Hooks, st: State, n: Node, ctx: Context, fuel: nat)
    ensures Grows(h, st, WalkNode(h, st, n, ctx, fuel).st, ctx)
    decreases fuel, 3, n
  {
    var enter := EnterNode(n, ctx);
    GrowsFire(h, st, enter, ctx);
    if !h.answer(st.trace, enter) {
      var s1 := st.Fire(enter);
      PlanGrows(h, s1, n, ctx, ctx, Plan(n), 0, fuel);
      var r := RunPlan(h, s1, n, ctx, ctx, Plan(n), 0, fuel);
      GrowsTrans(h, st, s1, r.st, ctx);
      if !r.out.Fatal? {
        var r2 := if ctx.Ctx? then WalkScopedList(h, r.st, ctx.top, ScopedAt(ctx.top, At(n)), 0, ctx, fuel)
                  else Run(r.st, Normal);
        if ctx.Ctx? {
          ScopedListGrows(h, r.st, ctx.top, ScopedAt(ctx.top, At(n)), 0, ctx, fuel);
        }
        GrowsTrans(h, st, r.st, r2.st, ctx);
        if !r2.out.Fatal? {
          GrowsFire(h, r2.st, PostProcessNode(n, ctx), ctx);
          GrowsTrans(h, st, r2.st, r2.st.Fire(PostProcessNode(n, ctx)), ctx);
        }
      }
    }
  }

  lemma {:induction false} PlanGrows(h: Hooks, st: State, n: Node, ctx: Context, derived: Context, plan: seq<Step>, i: nat, fuel: nat)
    requires i <= |plan|
    requires KeepsContext(h) ==> derived == ctx
    ensures Grows(h, st, RunPlan(h, st, n, ctx, derived, plan, i, fuel).st, ctx)
    decreases fuel, 3, n, 1, |plan| - i, 1
  {
    if i < |plan| {
      if plan[i].Child? || plan[i].ChildrenFrom? || plan[i].AssignTarget? {
        NestedStepGrows(h, st, n, ctx, derived, plan, i, fuel);
      } else {
        HookStepGrows(h, st, n, ctx, derived, plan, i, fuel);
      }
    }
  }

  /** A step that walks children grows the state, and so does the rest of
      the plan after it. */
  lemma {:induction false} NestedStepGrows(h: Hooks, st: State, n: Node, ctx: Context, derived: Context, plan: seq<Step>, i: nat, fuel: nat)
    requires i < |plan| && (plan[i].Child? || plan[i].ChildrenFrom? || plan[i].AssignTarget?)
    requires KeepsContext(h) ==> derived == ctx
    ensures Grows(h, st, RunPlan(h, st, n, ctx, derived, plan, i, fuel).st, ctx)
    decreases fuel, 3, n, 1, |plan| - i, 0
  {
    var r := RunPlan(h, st, n, ctx, derived, plan, i, fuel);
    match plan[i]
    case Child(k, sel) =>
      if k < |n.children| {
        var c := if sel == Derived then derived else ctx;
        NodeGrows(h, st, n.children[k], c, fuel);
        var r1 := WalkNode(h, st, n.children[k], c, fuel);
        if !r1.out.Fatal? {
          PlanGrows(h, r1.st, n, ctx, derived, plan, i + 1, fuel);
          GrowsTrans(h, st, r1.st, r.st, ctx);
        }
      }
    case ChildrenFrom(s) =>
      ChildrenGrows(h, st, n, s, ctx, fuel);
      var r1 := WalkChildren(h, st, n, s, ctx, fuel);
      if !r1.out.Fatal? {
        PlanGrows(h, r1.st, n, ctx, derived, plan, i + 1, fuel);
        GrowsTrans(h, st, r1.st, r.st, ctx);
      }
    case AssignTarget =>
      if 2 <= |n.children| {
        AssignGrows(h, st, n.children[0], ctx, n.children[1], n, fuel);
        var a := WalkAssign(h, st, n.children[0], ctx, n.children[1], n, fuel);
        if a.status.Declined? {
          PlanGrows(h, a.st, n, ctx, derived, plan, i + 1, fuel);
          GrowsTrans(h, st, a.st, r.st, ctx);
        }
      }
  }

  /** A step that only fires an event grows the state, and so does the rest
      of the plan after it. */
  lemma {:induction false} HookStepGrows(h: Hooks, st: State, n: Node, ctx: Context, derived: Context, plan: seq<Step>, i: nat, fuel: nat)
    requires i < |plan| && !(plan[i].Child? || plan[i].ChildrenFrom? || plan[i].AssignTarget?)
    requires KeepsContext(h) ==> derived == ctx
    ensures Grows(h, st, RunPlan(h, st, n, ctx, derived, plan, i, fuel).st, ctx)
    decreases fuel, 3, n, 1, |plan| - i, 0
  {
    var r := RunPlan(h, st, n, ctx, derived, plan, i, fuel);
    match plan[i]
    case VisitHook =>
      var v := VisitNode(n, ctx);
      GrowsFire(h, st, v, ctx);
      if !h.answer(st.trace, v) {
        PlanGrows(h, st.Fire(v), n, ctx, derived, plan, i + 1, fuel);
        GrowsTrans(h, st, st.Fire(v), r.st, ctx);
      }
    case MidHook(m) =>
      GrowsFire(h, st, MidNode(n, m, ctx), ctx);
      PlanGrows(h, st.Fire(MidNode(n, m, ctx)), n, ctx, derived, plan, i + 1, fuel);
      GrowsTrans(h, st, st.Fire(MidNode(n, m, ctx)), r.st, ctx);
    case Leave =>
      GrowsFire(h, st, LeaveNode(n, ctx), ctx);
      PlanGrows(h, st.Fire(LeaveNode(n, ctx)), n, ctx, derived, plan, i + 1, fuel);
      GrowsTrans(h, st, st.Fire(LeaveNode(n, ctx)), r.st, ctx);
    case MakeLocal =>
      var mk := MakeLocalContext(n, ctx);
      GrowsFire(h, st, mk, ctx);
      PlanGrows(h, st.Fire(mk), n, ctx, h.make(st.trace, mk), plan, i + 1, fuel);
      GrowsTrans(h, st, st.Fire(mk), r.st, ctx);
    case MakeUnwind =>
      if 1 < |n.children| {
        var mk := MakeUnwindContext(n.children[1], ctx);
        GrowsFire(h, st, mk, ctx);
        PlanGrows(h, st.Fire(mk), n, ctx, h.make(st.trace, mk), plan, i + 1, fuel);
        GrowsTrans(h, st, st.Fire(mk), r.st, ctx);
      }
    case Extension =>
      var d := DoVisit(n, ctx);
      GrowsFire(h, st, d, ctx);
      if h.answer(st.trace, d) {
        PlanGrows(h, st.Fire(d), n, ctx, derived, plan, i + 1, fuel);
        GrowsTrans(h, st, st.Fire(d), r.st, ctx);
      }
    case Halt(_) =>
  }

  lemma {:induction false} ChildrenGrows(h: Hooks, st: State, n: Node, i: nat, ctx: Context, fuel: nat)
    ensures Grows(h, st, WalkChildren(h, st, n, i, ctx, fuel).st, ctx)
    decreases fuel, 3, n, 0, if i <= |n.children| then |n.children| - i else 0
  {
    if i < |n.children| {
      NodeGrows(h, st, n.children[i], ctx, fuel);
      var r := WalkNode(h, st, n.children[i], ctx, fuel);
      if !r.out.Fatal? {
        ChildrenGrows(h, r.st, n, i + 1, ctx, fuel);
        GrowsTrans(h, st, r.st, WalkChildren(h, r.st, n, i + 1, ctx, fuel).st, ctx);
      }
    }
  }

  lemma {:induction false} AssignGrows(h: Hooks, st: State, t: Node, ctx: Context, v: Node, a: Node, fuel: nat)
    ensures Grows(h, st, WalkAssign(h, st, t, ctx, v, a, fuel).st, ctx)
    decreases fuel, 3, t, 2
  {
    var mode := ModeOf(a);
    var hv := VisitLvalue(t, v, a, mode, ctx);
    var leave := LeaveLvalue(t, v, a, mode, ctx);
    var s1 := st.Fire(hv);
    GrowsFire(h, st, hv, ctx);
    match t.kind
    case ArrayRef =>
      ArrayTargetGrows(h, st, t, ctx, v, a, fuel);
    case ObjectRef =>
      ObjectTargetGrows(h, st, t, ctx, v, a, fuel);
    case BlockExpr =>
      if !h.answer(st.trace, hv) && |t.children| > 0 {
        AssignGrows(h, s1, t.children[|t.children| - 1], ctx, v, a, fuel);
        var r := WalkAssign(h, s1, t.children[|t.children| - 1], ctx, v, a, fuel);
        GrowsTrans(h, st, s1, r.st, ctx);
        GrowsFire(h, r.st, leave, ctx);
        GrowsTrans(h, st, r.st, r.st.Fire(leave), ctx);
      }
    case Var =>
      GrowsFire(h, s1, leave, ctx);
      GrowsTrans(h, st, s1, s1.Fire(leave), ctx);
    case _ =>
      GrowsFire(h, st, DoVisitAssignNodes(t, v, a, ctx), ctx);
  }

  /** The ARRAY_REF case of `AssignGrows`. */
  lemma {:induction false} ArrayTargetGrows(h: Hooks, st: State, t: Node, ctx: Context, v: Node, a: Node, fuel: nat)
    requires t.kind == ArrayRef
    ensures Grows(h, st, WalkAssign(h, st, t, ctx, v, a, fuel).st, ctx)
    decreases fuel, 3, t, 1
  {
    var mode := ModeOf(a);
    var hv := VisitLvalue(t, v, a, mode, ctx);
    var leave := LeaveLvalue(t, v, a, mode, ctx);
    var s1 := st.Fire(hv);
    GrowsFire(h, st, hv, ctx);
    if !h.answer(st.trace, hv) && |t.children| > 0 {
      NodeGrows(h, s1, t.children[0], ctx, fuel);
      var r := WalkNode(h, s1, t.children[0], ctx, fuel);
      GrowsTrans(h, st, s1, r.st, ctx);
      if !r.out.Fatal? {
        ChildrenGrows(h, r.st, t, 2, ctx, fuel);
        var r2 := WalkChildren(h, r.st, t, 2, ctx, fuel);
        GrowsTrans(h, st, r.st, r2.st, ctx);
        GrowsFire(h, r2.st, leave, ctx);
        GrowsTrans(h, st, r2.st, r2.st.Fire(leave), ctx);
      }
    }
  }

  /** The OBJECT_REF case of `AssignGrows`. */
  lemma {:induction false} ObjectTargetGrows(h: Hooks, st: State, t: Node, ctx: Context, v: Node, a: Node, fuel: nat)
    requires t.kind == ObjectRef
    ensures Grows(h, st, WalkAssign(h, st, t, ctx, v, a, fuel).st, ctx)
    decreases fuel, 3, t, 1
  {
    var mode := ModeOf(a);
    var hv := VisitLvalue(t, v, a, mode, ctx);
    var leave := LeaveLvalue(t, v, a, mode, ctx);
    var s1 := st.Fire(hv);
    GrowsFire(h, st, hv, ctx);
    if !h.answer(st.trace, hv) && |t.children| > 0 {
      NodeGrows(h, s1, t.children[0], ctx, fuel);
      var r := WalkNode(h, s1, t.children[0], ctx, fuel);
      GrowsTrans(h, st, s1, r.st, ctx);
      GrowsFire(h, r.st, leave, ctx);
      GrowsTrans(h, st, r.st, r.st.Fire(leave), ctx);
    }
  }
}
