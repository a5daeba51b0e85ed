/**
 * Properties of single walks: what a short-circuiting hook suppresses,
 * which contexts the children of UNWIND and LOCAL_SCOPE see, what the
 * parent table holds afterwards, and which conditions abort the walk.
 */
module CAstWalkFacts {
  import opened Wrappers
  import opened CAstTree
  import opened CAstPlan
  import opened CAstWalk
  import opened CAstWalkGrowth

  /** An `enterEntity` that returns true ends the visit of that entity on the
      spot: no kind hook, no nested entity, not even `postProcessEntity`. */
  lemma EnterEntityShortCircuit(h: Hooks, st: State, e: Entity, ctx: Context, fuel: nat)
    requires fuel > 0 && h.answer(st.trace, EnterEntity(e, ctx))
    ensures WalkEntity(h, st, e, ctx, fuel) == Run(st.Fire(EnterEntity(e, ctx)), Normal)
  {
  }

  /** A kind visit hook that returns true skips the body and the leave hook
      of the entity, but `postProcessEntity` still runs. */
  lemma EntityVisitShortCircuit(h: Hooks, st: State, e: Entity, ctx: Context, fuel: nat)
    requires fuel > 0 && !e.kind.OtherEntity? && !h.answer(st.trace, EnterEntity(e, ctx))
    ensures var s1 := st.Fire(EnterEntity(e, ctx));
      var mk := MakeEntityContext(e, ctx);
      var v := if e.kind == FieldEntity then VisitEntity(e, ctx, ctx)
               else VisitEntity(e, ctx, h.make(s1.trace, mk));
      var s2 := if e.kind == FieldEntity then s1 else s1.Fire(mk);
      h.answer(s2.trace, v) ==>
        WalkEntity(h, st, e, ctx, fuel) == Run(s2.Fire(v).Fire(PostProcessEntity(e, ctx)), Normal)
  {
    var s1 := st.Fire(EnterEntity(e, ctx));
    match e.kind {
      case FileEntity => assert EntityBody(h, s1, e, ctx, fuel) == ContainerBody(h, s1, e, ctx, fuel);
      case TypeEntity => assert EntityBody(h, s1, e, ctx, fuel) == ContainerBody(h, s1, e, ctx, fuel);
      case FunctionEntity => assert EntityBody(h, s1, e, ctx, fuel) == CodeBody(h, s1, e, ctx, fuel);
      case ScriptEntity => assert EntityBody(h, s1, e, ctx, fuel) == CodeBody(h, s1, e, ctx, fuel);
      case FieldEntity =>
    }
  }

  /** A file or type entity that is neither entered nor short-circuited:
      its context is derived, then every scoped entity is visited under that
      context, then the leave hook and `postProcessEntity` run, in that
      order; an abort in a scoped entity ends the walk there. */
  lemma ContainerEntityOrder(h: Hooks, st: State, e: Entity, ctx: Context, fuel: nat)
    requires fuel > 0 && (e.kind == FileEntity || e.kind == TypeEntity)
    requires !h.answer(st.trace, EnterEntity(e, ctx))
    ensures var mk := MakeEntityContext(e, ctx);
      var s1 := st.Fire(EnterEntity(e, ctx)).Fire(mk);
      var inner := h.make(st.Fire(EnterEntity(e, ctx)).trace, mk);
      var v := VisitEntity(e, ctx, inner);
      var r := WalkScopedAll(h, s1.Fire(v), e, e.scopes, 0, inner, fuel - 1);
      !h.answer(s1.trace, v) ==>
        WalkEntity(h, st, e, ctx, fuel)
          == if r.out.Fatal? then r
             else Run(r.st.Fire(LeaveEntity(e, ctx, inner)).Fire(PostProcessEntity(e, ctx)), Normal)
  {
    assert EntityBody(h, st.Fire(EnterEntity(e, ctx)), e, ctx, fuel) == ContainerBody(h, st.Fire(EnterEntity(e, ctx)), e, ctx, fuel);
  }

  /** A function or script entity that is neither entered nor
      short-circuited: the code context is derived; the AST is visited under
      it only when there is one; then the entities scoped to the entity as a
      whole; then the leave hook and `postProcessEntity`. */
  lemma CodeEntityOrder(h: Hooks, st: State, e: Entity, ctx: Context, fuel: nat)
    requires fuel > 0 && (e.kind == FunctionEntity || e.kind == ScriptEntity)
    requires !h.answer(st.trace, EnterEntity(e, ctx))
    ensures var mk := MakeEntityContext(e, ctx);
      var s1 := st.Fire(EnterEntity(e, ctx)).Fire(mk);
      var inner := h.make(st.Fire(EnterEntity(e, ctx)).trace, mk);
      var v := VisitEntity(e, ctx, inner);
      var r1 := if e.ast.Some? then WalkNode(h, s1.Fire(v), e.ast.value, inner, fuel - 1) else Run(s1.Fire(v), Normal);
      var r2 := WalkScopedList(h, r1.st, e, ScopedAt(e, Global), 0, inner, fuel - 1);
      !h.answer(s1.trace, v) ==>
        WalkEntity(h, st, e, ctx, fuel)
          == if r1.out.Fatal? then r1
             else if r2.out.Fatal? then r2
             else Run(r2.st.Fire(LeaveEntity(e, ctx, inner)).Fire(PostProcessEntity(e, ctx)), Normal)
  {
    assert EntityBody(h, st.Fire(EnterEntity(e, ctx)), e, ctx, fuel) == CodeBody(h, st.Fire(EnterEntity(e, ctx)), e, ctx, fuel);
  }

  /** An `enterNode` that returns true ends the visit of that node on the
      spot: no children, no scoped entities, no `postProcessNode`. */
  lemma EnterNodeShortCircuit(h: Hooks, st: State, n: Node, ctx: Context, fuel: nat)
    requires h.answer(st.trace, EnterNode(n, ctx))
    ensures WalkNode(h, st, n, ctx, fuel) == Run(st.Fire(EnterNode(n, ctx)), Normal)
  {
  }

  /** The entities scoped at `n` and `postProcessNode`: what `visit` does
      after the kind-specific branch, whatever that branch did. */
  function Finish(h: Hooks, st: State, n: Node, ctx: Context, fuel: nat): Run
  {
    var r := if ctx.Ctx? then WalkScopedList(h, st, ctx.top, ScopedAt(ctx.top, At(n)), 0, ctx, fuel)
             else Run(st, Normal);
    if r.out.Fatal? then r else Run(r.st.Fire(PostProcessNode(n, ctx)), Normal)
  }

  /** Every kind the walker knows starts its branch with its visit hook. */
  lemma PlanStartsWithVisit(n: Node)
    requires !n.kind.OtherNode?
    ensures |Plan(n)| > 0 && Plan(n)[0] == VisitHook
  {
  }

  /** Once the kind visit hook of a known kind returns true, no child is
      visited and no leave hook fires; the scoped entities of the node are
      still visited and `postProcessNode` still runs. */
  lemma NodeVisitShortCircuit(h: Hooks, st: State, n: Node, ctx: Context, fuel: nat)
    requires !n.kind.OtherNode? && !h.answer(st.trace, EnterNode(n, ctx))
    requires h.answer(st.Fire(EnterNode(n, ctx)).trace, VisitNode(n, ctx))
    ensures WalkNode(h, st, n, ctx, fuel)
      == Finish(h, st.Fire(EnterNode(n, ctx)).Fire(VisitNode(n, ctx)), n, ctx, fuel)
  {
    PlanStartsWithVisit(n);
  }

  /** Without a short-circuiting `enterNode`, `visit` is its branch followed
      by the scoped entities and the post-processing step. */
  lemma NodeAlwaysFinishes(h: Hooks, st: State, n: Node, ctx: Context, fuel: nat)
    requires !h.answer(st.trace, EnterNode(n, ctx))
    ensures var r := RunPlan(h, st.Fire(EnterNode(n, ctx)), n, ctx, ctx, Plan(n), 0, fuel);
      WalkNode(h, st, n, ctx, fuel) == if r.out.Fatal? then r else Finish(h, r.st, n, ctx, fuel)
  {
  }

  /** UNWIND: the unwind context is built from the cleanup child 1 before
      anything is visited; the protected child 0 is visited under it and the
      cleanup child under the context `visit` received. */
  lemma {:induction false} UnwindContexts(h: Hooks, st: State, n: Node, ctx: Context, fuel: nat)
    requires n.kind == Unwind && |n.children| >= 2
    ensures var mk := MakeUnwindContext(n.children[1], ctx);
      var u := h.make(st.trace, mk);
      var r0 := WalkNode(h, st.Fire(mk), n.children[0], u, fuel);
      var r1 := WalkNode(h, r0.st, n.children[1], ctx, fuel);
      RunPlan(h, st, n, ctx, ctx, Plan(n), 1, fuel)
        == if r0.out.Fatal? then r0
           else if r1.out.Fatal? then r1
           else Run(r1.st.Fire(LeaveNode(n, ctx)), Normal)
  {
    var p := Plan(n);
    var mk := MakeUnwindContext(n.children[1], ctx);
    var u := h.make(st.trace, mk);
    var r0 := WalkNode(h, st.Fire(mk), n.children[0], u, fuel);
    assert p[1] == MakeUnwind && p[2] == Child(0, Derived) && p[3] == Child(1, Outer) && p[4] == Leave;
    assert RunPlan(h, st, n, ctx, ctx, p, 1, fuel) == RunPlan(h, st.Fire(mk), n, ctx, u, p, 2, fuel);
    if !r0.out.Fatal? {
      var r1 := WalkNode(h, r0.st, n.children[1], ctx, fuel);
      assert RunPlan(h, st.Fire(mk), n, ctx, u, p, 2, fuel) == RunPlan(h, r0.st, n, ctx, u, p, 3, fuel);
      if !r1.out.Fatal? {
        assert RunPlan(h, r0.st, n, ctx, u, p, 3, fuel) == RunPlan(h, r1.st, n, ctx, u, p, 4, fuel);
        assert RunPlan(h, r1.st, n, ctx, u, p, 4, fuel) == Run(r1.st.Fire(LeaveNode(n, ctx)), Normal);
      }
    }
  }

  /** IF_STMT and IF_EXPR after their visit hook: the condition, child 0;
      the condition-done hook; the true clause, child 1; the
      true-clause-done hook; the false clause, child 2, only when there is a
      third child; and the leave hook. An abort in a clause ends the walk
      there. */
  lemma {:induction false} IfOrder(h: Hooks, st: State, n: Node, ctx: Context, fuel: nat)
    requires (n.kind == IfStmt || n.kind == IfExpr) && |n.children| >= 2
    ensures var r0 := WalkNode(h, st, n.children[0], ctx, fuel);
      var r1 := WalkNode(h, r0.st.Fire(MidNode(n, ConditionDone, ctx)), n.children[1], ctx, fuel);
      var s2 := r1.st.Fire(MidNode(n, TrueClauseDone, ctx));
      var r2 := if |n.children| == 3 then WalkNode(h, s2, n.children[2], ctx, fuel) else Run(s2, Normal);
      RunPlan(h, st, n, ctx, ctx, Plan(n), 1, fuel)
        == if r0.out.Fatal? then r0
           else if r1.out.Fatal? then r1
           else if r2.out.Fatal? then r2
           else Run(r2.st.Fire(LeaveNode(n, ctx)), Normal)
  {
    var p := Plan(n);
    var three := |n.children| == 3;
    assert p == IfPlan(|n.children|);
    assert p[1] == Child(0, Outer) && p[2] == MidHook(ConditionDone) && p[3] == Child(1, Outer);
    assert p[4] == MidHook(TrueClauseDone) && |p| == if three then 7 else 6;
    assert three ==> p[5] == Child(2, Outer) && p[6] == Leave;
    assert !three ==> p[5] == Leave;
    var r0 := WalkNode(h, st, n.children[0], ctx, fuel);
    if !r0.out.Fatal? {
      var s1 := r0.st.Fire(MidNode(n, ConditionDone, ctx));
      assert RunPlan(h, st, n, ctx, ctx, p, 1, fuel) == RunPlan(h, s1, n, ctx, ctx, p, 3, fuel);
      var r1 := WalkNode(h, s1, n.children[1], ctx, fuel);
      if !r1.out.Fatal? {
        var s2 := r1.st.Fire(MidNode(n, TrueClauseDone, ctx));
        assert RunPlan(h, s1, n, ctx, ctx, p, 3, fuel) == RunPlan(h, s2, n, ctx, ctx, p, 5, fuel);
        if three {
          var r2 := WalkNode(h, s2, n.children[2], ctx, fuel);
          if !r2.out.Fatal? {
            assert RunPlan(h, s2, n, ctx, ctx, p, 5, fuel) == RunPlan(h, r2.st, n, ctx, ctx, p, 6, fuel);
            assert RunPlan(h, r2.st, n, ctx, ctx, p, 6, fuel) == Run(r2.st.Fire(LeaveNode(n, ctx)), Normal);
          }
        } else {
          assert RunPlan(h, s2, n, ctx, ctx, p, 5, fuel) == Run(s2.Fire(LeaveNode(n, ctx)), Normal);
        }
      }
    }
  }

  /** LOCAL_SCOPE: the visit hook runs under the original context, then the
      local context is derived and child 0 is visited under it. */
  lemma {:induction false} LocalScopeContext(h: Hooks, st: State, n: Node, ctx: Context, fuel: nat)
    requires n.kind == LocalScope && |n.children| >= 1
    ensures var v := VisitNode(n, ctx);
      var mk := MakeLocalContext(n, ctx);
      var s1 := st.Fire(v);
      var r0 := WalkNode(h, s1.Fire(mk), n.children[0], h.make(s1.trace, mk), fuel);
      RunPlan(h, st, n, ctx, ctx, Plan(n), 0, fuel)
        == if h.answer(st.trace, v) then Run(s1, Normal)
           else if r0.out.Fatal? then r0
           else Run(r0.st.Fire(LeaveNode(n, ctx)), Normal)
  {
    var p := Plan(n);
    var v := VisitNode(n, ctx);
    var mk := MakeLocalContext(n, ctx);
    var s1 := st.Fire(v);
    var l := h.make(s1.trace, mk);
    if !h.answer(st.trace, v) {
      assert p[1] == MakeLocal && p[2] == Child(0, Derived) && p[3] == Leave;
      assert RunPlan(h, s1, n, ctx, ctx, p, 1, fuel) == RunPlan(h, s1.Fire(mk), n, ctx, l, p, 2, fuel);
      var r0 := WalkNode(h, s1.Fire(mk), n.children[0], l, fuel);
      if !r0.out.Fatal? {
        assert RunPlan(h, s1.Fire(mk), n, ctx, l, p, 2, fuel) == RunPlan(h, r0.st, n, ctx, l, p, 3, fuel);
        assert RunPlan(h, r0.st, n, ctx, l, p, 3, fuel) == Run(r0.st.Fire(LeaveNode(n, ctx)), Normal);
      } else {
        assert RunPlan(h, s1.Fire(mk), n, ctx, l, p, 2, fuel) == r0;
      }
    }
  }

  /** When the lvalue dispatch reports the target handled, `leaveAssign`
      does not fire: the branch ends with the dispatch's state. */
  lemma HandledEndsAssign(h: Hooks, st: State, n: Node, ctx: Context, derived: Context, fuel: nat)
    requires n.kind == Assign || n.kind == AssignPreOp || n.kind == AssignPostOp
    requires |n.children| >= 2
    requires WalkAssign(h, st, n.children[0], ctx, n.children[1], n, fuel).status.Handled?
    ensures RunPlan(h, st, n, ctx, derived, Plan(n), 2, fuel)
      == Run(WalkAssign(h, st, n.children[0], ctx, n.children[1], n, fuel).st, Normal)
  {
  }

  /** For each of the four target shapes, an lvalue visit hook that returns
      true is the only event of the dispatch: no child of the target is
      walked, its lvalue leave hook does not fire, and it counts as handled. */
  lemma LvalueHandled(h: Hooks, st: State, t: Node, ctx: Context, v: Node, a: Node, fuel: nat)
    requires t.kind == ArrayRef || t.kind == ObjectRef || t.kind == BlockExpr || t.kind == Var
    requires h.answer(st.trace, VisitLvalue(t, v, a, ModeOf(a), ctx))
    ensures WalkAssign(h, st, t, ctx, v, a, fuel)
      == AssignRun(st.Fire(VisitLvalue(t, v, a, ModeOf(a), ctx)), Handled)
  {
  }

  /** An assignment whose lvalue visit hook returns true: after the
      right-hand side, child 1, the hook fires and the branch ends there,
      with neither the lvalue leave hook nor `leaveAssign`. */
  lemma LvalueShortCircuit(h: Hooks, st: State, n: Node, ctx: Context, fuel: nat)
    requires n.kind == Assign || n.kind == AssignPreOp || n.kind == AssignPostOp
    requires |n.children| >= 2
    requires n.children[0].kind in {ArrayRef, ObjectRef, BlockExpr, Var}
    requires var r1 := WalkNode(h, st, n.children[1], ctx, fuel);
      r1.out.Normal? && h.answer(r1.st.trace, VisitLvalue(n.children[0], n.children[1], n, ModeOf(n), ctx))
    ensures var r1 := WalkNode(h, st, n.children[1], ctx, fuel);
      RunPlan(h, st, n, ctx, ctx, Plan(n), 1, fuel)
        == Run(r1.st.Fire(VisitLvalue(n.children[0], n.children[1], n, ModeOf(n), ctx)), Normal)
  {
    var p := Plan(n);
    assert p == [VisitHook, Child(1, Outer), AssignTarget, Leave];
    var r1 := WalkNode(h, st, n.children[1], ctx, fuel);
    assert RunPlan(h, st, n, ctx, ctx, p, 1, fuel) == RunPlan(h, r1.st, n, ctx, ctx, p, 2, fuel);
    LvalueHandled(h, r1.st, n.children[0], ctx, n.children[1], n, fuel);
  }

  /** The hooks of an lvalue: ASSIGN uses the plain pair, the compound kinds
      the Op pair with `pre` set exactly for ASSIGN_PRE_OP; a VAR target gets
      its two hooks and nothing else. */
  lemma VarTarget(h: Hooks, st: State, t: Node, ctx: Context, v: Node, a: Node, fuel: nat)
    requires t.kind == Var
    ensures var hv := VisitLvalue(t, v, a, ModeOf(a), ctx);
      WalkAssign(h, st, t, ctx, v, a, fuel)
        == if h.answer(st.trace, hv) then AssignRun(st.Fire(hv), Handled)
           else AssignRun(st.Fire(hv).Fire(LeaveLvalue(t, v, a, ModeOf(a), ctx)), Declined)
    ensures ModeOf(a) == Plain <==> a.kind == Assign
    ensures ModeOf(a) == Op(true) <==> a.kind == AssignPreOp
  {
  }

  /** A BLOCK_EXPR target re-dispatches on its last child only. */
  lemma BlockTarget(h: Hooks, st: State, t: Node, ctx: Context, v: Node, a: Node, fuel: nat)
    requires t.kind == BlockExpr && |t.children| > 0
    ensures var mode := ModeOf(a);
      var hv := VisitLvalue(t, v, a, mode, ctx);
      var r := WalkAssign(h, st.Fire(hv), t.children[|t.children| - 1], ctx, v, a, fuel);
      !h.answer(st.trace, hv) ==>
        WalkAssign(h, st, t, ctx, v, a, fuel)
          == if r.status.Declined? then AssignRun(r.st.Fire(LeaveLvalue(t, v, a, mode, ctx)), Declined) else r
  {
  }

  /** After `visitScopedEntities` completes, every child it visited has an
      entry in the parent table. */
  lemma {:induction false} ParentsRecorded(h: Hooks, st: State, parent: Entity, list: seq<Entity>, i: nat, ctx: Context, fuel: nat)
    requires i <= |list|
    requires WalkScopedList(h, st, parent, list, i, ctx, fuel).out.Normal?
    ensures forall j | i <= j < |list| :: list[j] in WalkScopedList(h, st, parent, list, i, ctx, fuel).st.parents
    decreases |list| - i
  {
    if i < |list| {
      var s1 := st.(parents := st.parents[list[i] := parent]);
      var r := WalkEntity(h, s1, list[i], ctx, fuel);
      EntityGrows(h, s1, list[i], ctx, fuel);
      ParentsRecorded(h, r.st, parent, list, i + 1, ctx, fuel);
      ScopedListGrows(h, r.st, parent, list, i + 1, ctx, fuel);
    }
  }

  /** An entity of a kind the walker does not know, which `doVisitEntity`
      declines, aborts the walk, and its `postProcessEntity` never runs. */
  lemma UnknownEntityFails(h: Hooks, st: State, e: Entity, ctx: Context, fuel: nat)
    requires fuel > 0 && e.kind.OtherEntity? && !h.answer(st.trace, EnterEntity(e, ctx))
    requires !h.answer(st.Fire(EnterEntity(e, ctx)).trace, DoVisitEntity(e, ctx))
    ensures WalkEntity(h, st, e, ctx, fuel)
      == Run(st.Fire(EnterEntity(e, ctx)).Fire(DoVisitEntity(e, ctx)), Fatal(UnhandledEntity(e.kind)))
  {
  }

  /** A node of a kind the walker does not know, which `doVisit` declines,
      aborts the walk. */
  lemma UnknownNodeFails(h: Hooks, st: State, n: Node, ctx: Context, fuel: nat)
    requires n.kind.OtherNode? && !h.answer(st.trace, EnterNode(n, ctx))
    requires !h.answer(st.Fire(EnterNode(n, ctx)).trace, DoVisit(n, ctx))
    ensures WalkNode(h, st, n, ctx, fuel)
      == Run(st.Fire(EnterNode(n, ctx)).Fire(DoVisit(n, ctx)), Fatal(UnhandledNode(n.kind)))
  {
    var s1 := st.Fire(EnterNode(n, ctx));
    assert Plan(n) == [Extension];
    assert RunPlan(h, s1, n, ctx, ctx, [Extension], 0, fuel) == Run(s1.Fire(DoVisit(n, ctx)), Fatal(UnhandledNode(n.kind)));
  }

  /** A target of none of the four lvalue shapes, which `doVisitAssignNodes`
      declines, aborts the walk. */
  lemma UnknownTargetFails(h: Hooks, st: State, t: Node, ctx: Context, v: Node, a: Node, fuel: nat)
    requires t.kind !in {ArrayRef, ObjectRef, BlockExpr, Var}
    requires !h.answer(st.trace, DoVisitAssignNodes(t, v, a, ctx))
    ensures WalkAssign(h, st, t, ctx, v, a, fuel)
      == AssignRun(st.Fire(DoVisitAssignNodes(t, v, a, ctx)), AssignFailed(UnhandledLvalue(t.kind)))
  {
  }

  /** An IFGOTO with neither 1 nor 3 children aborts right after its visit
      hook, before any child and without its leave hook. */
  lemma MalformedIfGotoFails(h: Hooks, st: State, n: Node, ctx: Context, fuel: nat)
    requires n.kind == IfGoto && |n.children| != 1 && |n.children| != 3
    requires !h.answer(st.trace, VisitNode(n, ctx))
    ensures RunPlan(h, st, n, ctx, ctx, Plan(n), 0, fuel)
      == Run(st.Fire(VisitNode(n, ctx)), Fatal(MalformedIfGoto(|n.children|)))
  {
    var p := Plan(n);
    assert p[1] == Halt(MalformedIfGoto(|n.children|));
  }

  /** A LABEL_STMT with more than 2 children aborts after visiting its
      label, child 0. */
  lemma MalformedLabelFails(h: Hooks, st: State, n: Node, ctx: Context, fuel: nat)
    requires n.kind == LabelStmt && |n.children| > 2
    requires !h.answer(st.trace, VisitNode(n, ctx))
    ensures var r0 := WalkNode(h, st.Fire(VisitNode(n, ctx)), n.children[0], ctx, fuel);
      RunPlan(h, st, n, ctx, ctx, Plan(n), 0, fuel)
        == if r0.out.Fatal? then r0 else Run(r0.st, Fatal(MalformedLabel(|n.children|)))
  {
    var p := Plan(n);
    var s1 := st.Fire(VisitNode(n, ctx));
    assert p[1] == Child(0, Outer) && p[2] == Halt(MalformedLabel(|n.children|));
    assert RunPlan(h, st, n, ctx, ctx, p, 0, fuel) == RunPlan(h, s1, n, ctx, ctx, p, 1, fuel);
    var r0 := WalkNode(h, s1, n.children[0], ctx, fuel);
    if !r0.out.Fatal? {
      assert RunPlan(h, s1, n, ctx, ctx, p, 1, fuel) == RunPlan(h, r0.st, n, ctx, ctx, p, 2, fuel);
    }
  }

  /** The base class's make*Context keep the context, so under the default
      hooks every hook of a walk receives the context the walk started with. */
  lemma DefaultKeepsContext(st: State, n: Node, ctx: Context, fuel: nat)
    ensures KeepsContext(DefaultHooks())
    ensures var r := WalkNode(DefaultHooks(), st, n, ctx, fuel);
      st.trace <= r.st.trace && forall k | |st.trace| <= k < |r.st.trace| :: Under(r.st.trace[k], ctx)
  {
    NodeGrows(DefaultHooks(), st, n, ctx, fuel);
  }
}
