/**
 * The meaning of a walk: what `CAstVisitor.visitEntities`, `visit` and
 * `visitAssignNodes` do, as functions from the walker's state (the hook
 * calls made so far and the entity-to-parent table) to the new state and
 * the outcome. The methods of `CAstVisitor.Walker` are proved to compute
 * exactly these.
 *
 * `fuel` bounds the nesting of entity visits: a node's scoped entities are
 * looked up in the context's top entity, which need not be part of the tree
 * being walked, so nothing structural makes the recursion finite.
 */
module CAstWalk {
  import opened Wrappers
  import opened CAstTree
  import opened CAstPlan

  datatype State = State(trace: seq<Event>, parents: map<Entity, Entity>)
  {
    /** The state after one more hook call. */
    function Fire(ev: Event): State
    {
      this.(trace := trace + [ev])
    }
  }

  datatype Run = Run(st: State, out: Outcome)

  /** What `visitAssignNodes` returns: false (`Declined`), true (`Handled`),
      or the exception it throws. */
  datatype AssignStatus = Declined | Handled | AssignFailed(failure: Failure)

  datatype AssignRun = AssignRun(st: State, status: AssignStatus)

  /** `visitEntities(e, ctx)`. */
  function WalkEntity(h: Hooks, st: State, e: Entity, ctx: Context, fuel: nat): Run
    decreases fuel, 0, 1
  {
    if fuel == 0 then Run(st, Fatal(Exhausted))
    else
      var enter := EnterEntity(e, ctx);
      if h.answer(st.trace, enter) then Run(st.Fire(enter), Normal)
      else
        var r := EntityBody(h, st.Fire(enter), e, ctx, fuel);
        if r.out.Fatal? then r else Run(r.st.Fire(PostProcessEntity(e, ctx)), Normal)
  }

  /** The `switch` on the entity's kind inside `visitEntities`. */
  function EntityBody(h: Hooks, st: State, e: Entity, ctx: Context, fuel: nat): Run
    requires fuel > 0
    decreases fuel, 0, 0, 1
  {
    match e.kind
    case FileEntity => ContainerBody(h, st, e, ctx, fuel)
    case TypeEntity => ContainerBody(h, st, e, ctx, fuel)
    case FieldEntity =>
      var v := VisitEntity(e, ctx, ctx);
      if h.answer(st.trace, v) then Run(st.Fire(v), Normal)
      else Run(st.Fire(v).Fire(LeaveEntity(e, ctx, ctx)), Normal)
    case FunctionEntity => CodeBody(h, st, e, ctx, fuel)
    case ScriptEntity => CodeBody(h, st, e, ctx, fuel)
    case OtherEntity(_) =>
      var d := DoVisitEntity(e, ctx);
      if h.answer(st.trace, d) then Run(st.Fire(d), Normal)
      else Run(st.Fire(d), Fatal(UnhandledEntity(e.kind)))
  }

  /** A file or type entity: derive its context, then visit every scoped
      entity under it. */
  function ContainerBody(h: Hooks, st: State, e: Entity, ctx: Context, fuel: nat): Run
    requires fuel > 0
    decreases fuel, 0, 0, 0
  {
    var mk := MakeEntityContext(e, ctx);
    var inner := h.make(st.trace, mk);
    var st1 := st.Fire(mk);
    var v := VisitEntity(e, ctx, inner);
    if h.answer(st1.trace, v) then Run(st1.Fire(v), Normal)
    else
      var r := WalkScopedAll(h, st1.Fire(v), e, e.scopes, 0, inner, fuel - 1);
      if r.out.Fatal? then r else Run(r.st.Fire(LeaveEntity(e, ctx, inner)), Normal)
  }

  /** A function or script entity: derive the code context, visit the AST if
      there is one, then the entities scoped to the entity as a whole. */
  function CodeBody(h: Hooks, st: State, e: Entity, ctx: Context, fuel: nat): Run
    requires fuel > 0
    decreases fuel, 0, 0, 0
  {
    var mk := MakeEntityContext(e, ctx);
    var inner := h.make(st.trace, mk);
    var st1 := st.Fire(mk);
    var v := VisitEntity(e, ctx, inner);
    if h.answer(st1.trace, v) then Run(st1.Fire(v), Normal)
    else
      var r1 := if e.ast.Some? then WalkNode(h, st1.Fire(v), e.ast.value, inner, fuel - 1)
                else Run(st1.Fire(v), Normal);
      if r1.out.Fatal? then r1
      else
        var r2 := WalkScopedList(h, r1.st, e, ScopedAt(e, Global), 0, inner, fuel - 1);
        if r2.out.Fatal? then r2 else Run(r2.st.Fire(LeaveEntity(e, ctx, inner)), Normal)
  }

  /** `visitScopedEntities(parent, allScopedEntities, ctx)` from scope `j` on. */
  function WalkScopedAll(h: Hooks, st: State, parent: Entity, scopes: seq<Scope>, j: nat, ctx: Context, fuel: nat): Run
    requires j <= |scopes|
    decreases fuel, 2, |scopes| - j
  {
    if j == |scopes| then Run(st, Normal)
    else
      var r := WalkScopedList(h, st, parent, scopes[j].members, 0, ctx, fuel);
      if r.out.Fatal? then r else WalkScopedAll(h, r.st, parent, scopes, j + 1, ctx, fuel)
  }

  /** `visitScopedEntities(parent, iterator, ctx)` from element `i` on: record
      the parent of each child, then visit it. */
  function WalkScopedList(h: Hooks, st: State, parent: Entity, list: seq<Entity>, i: nat, ctx: Context, fuel: nat): Run
    requires i <= |list|
    decreases fuel, 1, |list| - i
  {
    if i == |list| then Run(st, Normal)
    else
      var r := WalkEntity(h, st.(parents := st.parents[list[i] := parent]), list[i], ctx, fuel);
      if r.out.Fatal? then r else WalkScopedList(h, r.st, parent, list, i + 1, ctx, fuel)
  }

  /** `visit(n, ctx)`. */
  function WalkNode(h: Hooks, st: State, n: Node, ctx: Context, fuel: nat): Run
    decreases fuel, 3, n
  {
    var enter := EnterNode(n, ctx);
    if h.answer(st.trace, enter) then Run(st.Fire(enter), Normal)
    else
      var r := RunPlan(h, st.Fire(enter), n, ctx, ctx, Plan(n), 0, fuel);
      if r.out.Fatal? then r
      else
        var r2 := if ctx.Ctx? then WalkScopedList(h, r.st, ctx.top, ScopedAt(ctx.top, At(n)), 0, ctx, fuel)
                  else Run(r.st, Normal);
        if r2.out.Fatal? then r2 else Run(r2.st.Fire(PostProcessNode(n, ctx)), Normal)
  }

  /** The `switch` branch for `n`'s kind, from step `i` of its plan on.
      `derived` is the context the last MakeLocal/MakeUnwind step produced. */
  function RunPlan(h: Hooks, st: State, n: Node, ctx: Context, derived: Context, plan: seq<Step>, i: nat, fuel: nat): Run
    requires i <= |plan|
    decreases fuel, 3, n, 1, |plan| - i
  {
    if i == |plan| then Run(st, Normal)
    else
      match plan[i]
      case VisitHook =>
        var v := VisitNode(n, ctx);
        if h.answer(st.trace, v) then Run(st.Fire(v), Normal)
        else RunPlan(h, st.Fire(v), n, ctx, derived, plan, i + 1, fuel)
      case Child(k, sel) =>
        if k < |n.children| then
          var r := WalkNode(h, st, n.children[k], if sel == Derived then derived else ctx, fuel);
          if r.out.Fatal? then r else RunPlan(h, r.st, n, ctx, derived, plan, i + 1, fuel)
        else Run(st, Fatal(MissingChild(n.kind, k)))
      case ChildrenFrom(s) =>
        var r := WalkChildren(h, st, n, s, ctx, fuel);
        if r.out.Fatal? then r else RunPlan(h, r.st, n, ctx, derived, plan, i + 1, fuel)
      case MidHook(m) => RunPlan(h, st.Fire(MidNode(n, m, ctx)), n, ctx, derived, plan, i + 1, fuel)
      case Leave => RunPlan(h, st.Fire(LeaveNode(n, ctx)), n, ctx, derived, plan, i + 1, fuel)
      case MakeLocal =>
        var mk := MakeLocalContext(n, ctx);
        RunPlan(h, st.Fire(mk), n, ctx, h.make(st.trace, mk), plan, i + 1, fuel)
      case MakeUnwind =>
        if 1 < |n.children| then
          var mk := MakeUnwindContext(n.children[1], ctx);
          RunPlan(h, st.Fire(mk), n, ctx, h.make(st.trace, mk), plan, i + 1, fuel)
        else Run(st, Fatal(MissingChild(n.kind, 1)))
      case AssignTarget =>
        if |n.children| < 2 then Run(st, Fatal(MissingChild(n.kind, |n.children|)))
        else
          var a := WalkAssign(h, st, n.children[0], ctx, n.children[1], n, fuel);
          if a.status.Handled? then Run(a.st, Normal)
          else if a.status.AssignFailed? then Run(a.st, Fatal(a.status.failure))
          else RunPlan(h, a.st, n, ctx, derived, plan, i + 1, fuel)
      case Extension =>
        var d := DoVisit(n, ctx);
        if h.answer(st.trace, d) then RunPlan(h, st.Fire(d), n, ctx, derived, plan, i + 1, fuel)
        else Run(st.Fire(d), Fatal(UnhandledNode(n.kind)))
      case Halt(f) => Run(st, Fatal(f))
  }

  /** `visitChildren(n, i, ctx)`: every child from index `i` on, in order. */
  function WalkChildren(h: Hooks, st: State, n: Node, i: nat, ctx: Context, fuel: nat): Run
    decreases fuel, 3, n, 0, if i <= |n.children| then |n.children| - i else 0
  {
    if i >= |n.children| then Run(st, Normal)
    else
      var r := WalkNode(h, st, n.children[i], ctx, fuel);
      if r.out.Fatal? then r else WalkChildren(h, r.st, n, i + 1, ctx, fuel)
  }

  /** `visitAssignNodes(t, ctx, v, a)`: the target `t` of assignment `a`
      whose right-hand side is `v`. */
  function WalkAssign(h: Hooks, st: State, t: Node, ctx: Context, v: Node, a: Node, fuel: nat): AssignRun
    decreases fuel, 3, t, 2
  {
    var mode := ModeOf(a);
    var hv := VisitLvalue(t, v, a, mode, ctx);
    var leave := LeaveLvalue(t, v, a, mode, ctx);
    if t.kind.ArrayRef? then
      if h.answer(st.trace, hv) then AssignRun(st.Fire(hv), Handled)
      else if |t.children| == 0 then AssignRun(st.Fire(hv), AssignFailed(MissingChild(t.kind, 0)))
      else
        var r := WalkNode(h, st.Fire(hv), t.children[0], ctx, fuel);
        if r.out.Fatal? then AssignRun(r.st, AssignFailed(r.out.failure))
        else
          var r2 := WalkChildren(h, r.st, t, 2, ctx, fuel);
          if r2.out.Fatal? then AssignRun(r2.st, AssignFailed(r2.out.failure))
          else AssignRun(r2.st.Fire(leave), Declined)
    else if t.kind.ObjectRef? then
      if h.answer(st.trace, hv) then AssignRun(st.Fire(hv), Handled)
      else if |t.children| == 0 then AssignRun(st.Fire(hv), AssignFailed(MissingChild(t.kind, 0)))
      else
        var r := WalkNode(h, st.Fire(hv), t.children[0], ctx, fuel);
        if r.out.Fatal? then AssignRun(r.st, AssignFailed(r.out.failure))
        else AssignRun(r.st.Fire(leave), Declined)
    else if t.kind.BlockExpr? then
      if h.answer(st.trace, hv) then AssignRun(st.Fire(hv), Handled)
      else if |t.children| == 0 then AssignRun(st.Fire(hv), AssignFailed(MissingChild(t.kind, -1)))
      else
        var r := WalkAssign(h, st.Fire(hv), t.children[|t.children| - 1], ctx, v, a, fuel);
        if r.status.Declined? then AssignRun(r.st.Fire(leave), Declined) else r
    else if t.kind.Var? then
      if h.answer(st.trace, hv) then AssignRun(st.Fire(hv), Handled)
      else AssignRun(st.Fire(hv).Fire(leave), Declined)
    else
      var d := DoVisitAssignNodes(t, v, a, ctx);
      if h.answer(st.trace, d) then AssignRun(st.Fire(d), Declined)
      else AssignRun(st.Fire(d), AssignFailed(UnhandledLvalue(t.kind)))
  }
}
