/**
 * The traversal engine `CAstVisitor` as a class: it owns the
 * entity-to-parent table and records every hook call in `trace`; the
 * short-circuit answers and derived contexts come from `hooks`, which stands
 * for the overriding subclass. Every walking method is proved to do exactly
 * what the corresponding function of `CAstWalk` says.
 */
module CAstVisitor {
  import opened Wrappers
  import opened CAstTree
  import opened CAstPlan
  import opened CAstWalk

  class Walker {
    const hooks: Hooks
    var trace: seq<Event>
    var parents: map<Entity, Entity>

    function Current(): State
      reads this
    {
      State(trace, parents)
    }

    constructor (hooks: Hooks)
      ensures this.hooks == hooks && trace == [] && parents == map[]
    {
      this.hooks := hooks;
      trace := [];
      parents := map[];
    }

    /** `getParent(entity)`: the recorded parent, or null. */
    function GetParent(entity: Entity): (r: Option<Entity>)
      reads this
      ensures r.Some? <==> entity in parents
      ensures r.Some? ==> r.value == parents[entity]
    {
      if entity in parents then Some(parents[entity]) else None
    }

    /** `setParent(entity, parent)`: a plain map put. */
    method SetParent(entity: Entity, parent: Entity)
      modifies this
      ensures parents == old(parents)[entity := parent] && trace == old(trace)
      ensures GetParent(entity) == Some(parent)
      ensures forall other :: other != entity ==> GetParent(other) == old(GetParent(other))
    {
      parents := parents[entity := parent];
    }

    /** Fires a hook and returns its answer. */
    method Ask(ev: Event) returns (answer: bool)
      modifies this
      ensures answer == hooks.answer(old(trace), ev)
      ensures trace == old(trace) + [ev] && parents == old(parents)
    {
      answer := hooks.answer(trace, ev);
      trace := trace + [ev];
    }

    /** Fires a hook whose result is ignored or absent. */
    method Tell(ev: Event)
      modifies this
      ensures trace == old(trace) + [ev] && parents == old(parents)
    {
      trace := trace + [ev];
    }

    /** Fires a make*Context hook and returns the context it makes. */
    method Make(ev: Event) returns (c: Context)
      modifies this
      ensures c == hooks.make(old(trace), ev)
      ensures trace == old(trace) + [ev] && parents == old(parents)
    {
      c := hooks.make(trace, ev);
      trace := trace + [ev];
    }

    /** `visitEntities(e, ctx)`. */
    method VisitEntities(e: Entity, ctx: Context, fuel: nat) returns (out: Outcome)
      modifies this
      ensures Run(Current(), out) == WalkEntity(hooks, old(Current()), e, ctx, fuel)
      decreases fuel, 0, 1
    {
      if fuel == 0 {
        return Fatal(Exhausted);
      }
      var stop := Ask(EnterEntity(e, ctx));
      if stop {
        return Normal;
      }
      match e.kind {
      case FileEntity => out := VisitContainer(e, ctx, fuel);
      case TypeEntity => out := VisitContainer(e, ctx, fuel);
      case FieldEntity =>
        stop := Ask(VisitEntity(e, ctx, ctx));
        if !stop {
          Tell(LeaveEntity(e, ctx, ctx));
        }
        out := Normal;
      case FunctionEntity => out := VisitCode(e, ctx, fuel);
      case ScriptEntity => out := VisitCode(e, ctx, fuel);
      case OtherEntity(_) =>
        var handled := Ask(DoVisitEntity(e, ctx));
        out := if handled then Normal else Fatal(UnhandledEntity(e.kind));
      }
      if out.Fatal? {
        return;
      }
      Tell(PostProcessEntity(e, ctx));
    }

    /** The FILE_ENTITY and TYPE_ENTITY branches of `visitEntities`. */
    method VisitContainer(e: Entity, ctx: Context, fuel: nat) returns (out: Outcome)
      requires fuel > 0
      modifies this
      ensures Run(Current(), out) == ContainerBody(hooks, old(Current()), e, ctx, fuel)
      decreases fuel, 0, 0, 0
    {
      var inner := Make(MakeEntityContext(e, ctx));
      var stop := Ask(VisitEntity(e, ctx, inner));
      if stop {
        return Normal;
      }
      out := VisitAllScopedEntities(e, e.scopes, inner, fuel - 1);
      if out.Fatal? {
        return;
      }
      Tell(LeaveEntity(e, ctx, inner));
    }

    /** The FUNCTION_ENTITY and SCRIPT_ENTITY branches of `visitEntities`. */
    method VisitCode(e: Entity, ctx: Context, fuel: nat) returns (out: Outcome)
      requires fuel > 0
      modifies this
      ensures Run(Current(), out) == CodeBody(hooks, old(Current()), e, ctx, fuel)
      decreases fuel, 0, 0, 0
    {
      var inner := Make(MakeEntityContext(e, ctx));
      var stop := Ask(VisitEntity(e, ctx, inner));
      if stop {
        return Normal;
      }
      if e.ast.Some? {
        out := Visit(e.ast.value, inner, fuel - 1);
        if out.Fatal? {
          return;
        }
      }
      out := VisitScopedEntities(e, ScopedAt(e, Global), inner, fuel - 1);
      if out.Fatal? {
        return;
      }
      Tell(LeaveEntity(e, ctx, inner));
    }

    /** `visitScopedEntities(n, allScopedEntities, ctx)`: every scope's
        entities, scope after scope. */
    method VisitAllScopedEntities(n: Entity, scopes: seq<Scope>, ctx: Context, fuel: nat) returns (out: Outcome)
      modifies this
      ensures Run(Current(), out) == WalkScopedAll(hooks, old(Current()), n, scopes, 0, ctx, fuel)
      decreases fuel, 2
    {
      var j := 0;
      while j < |scopes|
        invariant 0 <= j <= |scopes|
        invariant WalkScopedAll(hooks, old(Current()), n, scopes, 0, ctx, fuel)
               == WalkScopedAll(hooks, Current(), n, scopes, j, ctx, fuel)
        decreases |scopes| - j
      {
        out := VisitScopedEntities(n, scopes[j].members, ctx, fuel);
        if out.Fatal? {
          return;
        }
        j := j + 1;
      }
      return Normal;
    }

    /** `visitScopedEntities(n, iterator, ctx)`: for each child in order,
        record `n` as its parent and then visit it. */
    method VisitScopedEntities(n: Entity, children: seq<Entity>, ctx: Context, fuel: nat) returns (out: Outcome)
      modifies this
      ensures Run(Current(), out) == WalkScopedList(hooks, old(Current()), n, children, 0, ctx, fuel)
      decreases fuel, 1
    {
      var i := 0;
      while i < |children|
        invariant 0 <= i <= |children|
        invariant WalkScopedList(hooks, old(Current()), n, children, 0, ctx, fuel)
               == WalkScopedList(hooks, Current(), n, children, i, ctx, fuel)
        decreases |children| - i
      {
        SetParent(children[i], n);
        out := VisitEntities(children[i], ctx, fuel);
        if out.Fatal? {
          return;
        }
        i := i + 1;
      }
      return Normal;
    }

    /** `visit(n, ctx)`. */
    method Visit(n: Node, ctx: Context, fuel: nat) returns (out: Outcome)
      modifies this
      ensures Run(Current(), out) == WalkNode(hooks, old(Current()), n, ctx, fuel)
      decreases fuel, 3, n
    {
      var stop := Ask(EnterNode(n, ctx));
      if stop {
        return Normal;
      }
      out := ExecutePlan(n, ctx, Plan(n), fuel);
      if out.Fatal? {
        return;
      }
      if ctx.Ctx? {
        out := VisitScopedEntities(ctx.top, ScopedAt(ctx.top, At(n)), ctx, fuel);
        if out.Fatal? {
          return;
        }
      }
      Tell(PostProcessNode(n, ctx));
    }

    /** The `switch` branch of `visit` for `n`'s kind. */
    method ExecutePlan(n: Node, ctx: Context, plan: seq<Step>, fuel: nat) returns (out: Outcome)
      modifies this
      ensures Run(Current(), out) == RunPlan(hooks, old(Current()), n, ctx, ctx, plan, 0, fuel)
      decreases fuel, 3, n, 1
    {
      var derived := ctx;
      var i := 0;
      while i < |plan|
        invariant 0 <= i <= |plan|
        invariant RunPlan(hooks, old(Current()), n, ctx, ctx, plan, 0, fuel)
               == RunPlan(hooks, Current(), n, ctx, derived, plan, i, fuel)
        decreases |plan| - i
      {
        match plan[i] {
        case VisitHook =>
          var stop := Ask(VisitNode(n, ctx));
          if stop {
            return Normal;
          }
        case Child(k, sel) =>
          if k >= |n.children| {
            return Fatal(MissingChild(n.kind, k));
          }
          out := Visit(n.children[k], if sel == Derived then derived else ctx, fuel);
          if out.Fatal? {
            return;
          }
        case ChildrenFrom(s) =>
          out := VisitChildren(n, s, ctx, fuel);
          if out.Fatal? {
            return;
          }
        case MidHook(m) => Tell(MidNode(n, m, ctx));
        case Leave => Tell(LeaveNode(n, ctx));
        case MakeLocal => derived := Make(MakeLocalContext(n, ctx));
        case MakeUnwind =>
          if |n.children| <= 1 {
            return Fatal(MissingChild(n.kind, 1));
          }
          derived := Make(MakeUnwindContext(n.children[1], ctx));
        case AssignTarget =>
          if |n.children| < 2 {
            return Fatal(MissingChild(n.kind, |n.children|));
          }
          var status := VisitAssignNodes(n.children[0], ctx, n.children[1], n, fuel);
          if status.Handled? {
            return Normal;
          }
          if status.AssignFailed? {
            return Fatal(status.failure);
          }
        case Extension =>
          var handled := Ask(DoVisit(n, ctx));
          if !handled {
            return Fatal(UnhandledNode(n.kind));
          }
        case Halt(f) => return Fatal(f);
        }
        i := i + 1;
      }
      return Normal;
    }

    /** `visitChildren(n, start, ctx)`. */
    method VisitChildren(n: Node, start: nat, ctx: Context, fuel: nat) returns (out: Outcome)
      modifies this
      ensures Run(Current(), out) == WalkChildren(hooks, old(Current()), n, start, ctx, fuel)
      decreases fuel, 3, n, 0, |n.children| + 1
    {
      var i := start;
      while i < |n.children|
        invariant start <= i
        invariant start <= |n.children| ==> i <= |n.children|
        invariant WalkChildren(hooks, old(Current()), n, start, ctx, fuel)
               == WalkChildren(hooks, Current(), n, i, ctx, fuel)
        decreases |n.children| - i
      {
        out := Visit(n.children[i], ctx, fuel);
        if out.Fatal? {
          return;
        }
        i := i + 1;
      }
      return Normal;
    }

    /** `visitAllChildren(n, ctx)`. */
    method VisitAllChildren(n: Node, ctx: Context, fuel: nat) returns (out: Outcome)
      modifies this
      ensures Run(Current(), out) == WalkChildren(hooks, old(Current()), n, 0, ctx, fuel)
      decreases fuel, 3, n, 0, |n.children| + 2
    {
      out := VisitChildren(n, 0, ctx, fuel);
    }

    /** `visitAssignNodes(t, ctx, v, a)`. */
    method VisitAssignNodes(t: Node, ctx: Context, v: Node, a: Node, fuel: nat) returns (status: AssignStatus)
      modifies this
      ensures AssignRun(Current(), status) == WalkAssign(hooks, old(Current()), t, ctx, v, a, fuel)
      decreases fuel, 3, t, 2
    {
      if t.kind.ArrayRef? {
        status := VisitArrayRefTarget(t, ctx, v, a, fuel);
      } else if t.kind.ObjectRef? {
        status := VisitObjectRefTarget(t, ctx, v, a, fuel);
      } else if t.kind.BlockExpr? {
        status := VisitBlockTarget(t, ctx, v, a, fuel);
      } else if t.kind.Var? {
        var mode := ModeOf(a);
        var stop := Ask(VisitLvalue(t, v, a, mode, ctx));
        if stop {
          return Handled;
        }
        Tell(LeaveLvalue(t, v, a, mode, ctx));
        return Declined;
      } else {
        var handled := Ask(DoVisitAssignNodes(t, v, a, ctx));
        return if handled then Declined else AssignFailed(UnhandledLvalue(t.kind));
      }
    }

    /** The ARRAY_REF target of `visitAssignNodes`: the lvalue hook, the
        array expression, the index expressions, the lvalue leave hook. */
    method VisitArrayRefTarget(t: Node, ctx: Context, v: Node, a: Node, fuel: nat) returns (status: AssignStatus)
      requires t.kind == ArrayRef
      modifies this
      ensures AssignRun(Current(), status) == WalkAssign(hooks, old(Current()), t, ctx, v, a, fuel)
      decreases fuel, 3, t, 1
    {
      var mode := ModeOf(a);
      var stop := Ask(VisitLvalue(t, v, a, mode, ctx));
      if stop {
        return Handled;
      }
      if |t.children| == 0 {
        return AssignFailed(MissingChild(t.kind, 0));
      }
      var out := Visit(t.children[0], ctx, fuel);
      if out.Fatal? {
        return AssignFailed(out.failure);
      }
      out := VisitChildren(t, 2, ctx, fuel);
      if out.Fatal? {
        return AssignFailed(out.failure);
      }
      Tell(LeaveLvalue(t, v, a, mode, ctx));
      return Declined;
    }

    /** The OBJECT_REF target of `visitAssignNodes`: the lvalue hook, the
        object expression, the lvalue leave hook. */
    method VisitObjectRefTarget(t: Node, ctx: Context, v: Node, a: Node, fuel: nat) returns (status: AssignStatus)
      requires t.kind == ObjectRef
      modifies this
      ensures AssignRun(Current(), status) == WalkAssign(hooks, old(Current()), t, ctx, v, a, fuel)
      decreases fuel, 3, t, 1
    {
      var mode := ModeOf(a);
      var stop := Ask(VisitLvalue(t, v, a, mode, ctx));
      if stop {
        return Handled;
      }
      if |t.children| == 0 {
        return AssignFailed(MissingChild(t.kind, 0));
      }
      var out := Visit(t.children[0], ctx, fuel);
      if out.Fatal? {
        return AssignFailed(out.failure);
      }
      Tell(LeaveLvalue(t, v, a, mode, ctx));
      return Declined;
    }

    /** The BLOCK_EXPR target of `visitAssignNodes`: the lvalue hook, then
        the same dispatch on the block's last child, then the lvalue leave
        hook when that dispatch declined. */
    method VisitBlockTarget(t: Node, ctx: Context, v: Node, a: Node, fuel: nat) returns (status: AssignStatus)
      requires t.kind == BlockExpr
      modifies this
      ensures AssignRun(Current(), status) == WalkAssign(hooks, old(Current()), t, ctx, v, a, fuel)
      decreases fuel, 3, t, 1
    {
      var mode := ModeOf(a);
      var stop := Ask(VisitLvalue(t, v, a, mode, ctx));
      if stop {
        return Handled;
      }
      if |t.children| == 0 {
        return AssignFailed(MissingChild(t.kind, -1));
      }
      status := VisitAssignNodes(t.children[|t.children| - 1], ctx, v, a, fuel);
      if !status.Declined? {
        return;
      }
      Tell(LeaveLvalue(t, v, a, mode, ctx));
    }
  }
}
