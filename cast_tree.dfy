/**
 * The common-AST vocabulary consumed by the traversal engine: node and entity
 * kinds, nodes, entities with their scope tables, contexts, and the hook
 * events a visitor receives.
 */
module CAstTree {
  import opened Wrappers

  /** The closed catalogue of node kinds the walker dispatches on; `OtherNode`
      stands for a kind that only an extension understands. */
  datatype NodeKind =
    | FunctionExpr | FunctionStmt | LocalScope | BlockExpr | BlockStmt | Loop
    | GetCaughtException | This | Super | Call | Var | Constant | BinaryExpr
    | UnaryExpr | ArrayLength | ArrayRef | DeclStmt | Return | IfGoto | Goto
    | LabelStmt | IfStmt | IfExpr | New | ObjectLiteral | ArrayLiteral | ObjectRef
    | Assign | AssignPreOp | AssignPostOp | Switch | Throw | Catch | Unwind | Try
    | Empty | Primitive | Void | Cast | InstanceOf | Assert | EachElementGet
    | EachElementHasNext | TypeLiteralExpr
    | OtherNode(code: int)

  /** Entity kinds; `OtherEntity` stands for a kind only an extension handles. */
  datatype EntityKind = FileEntity | FieldEntity | TypeEntity | FunctionEntity | ScriptEntity
                      | OtherEntity(code: int)

  /** A tree element. `id` stands for the node's object identity: two nodes
      with the same kind and children are still different nodes. */
  datatype Node = Node(id: nat, kind: NodeKind, children: seq<Node>)

  /** A scope-table key: the entity as a whole (Java `null`) or a node of it. */
  datatype ScopeKey = Global | At(node: Node)

  datatype Scope = Scope(key: ScopeKey, members: seq<Entity>)

  /** A compilation unit. `scopes` lists the scope table in the order its
      iteration yields it; `id` stands for object identity. */
  datatype Entity = Entity(id: nat, kind: EntityKind, ast: Option<Node>, scopes: seq<Scope>)

  /** `getScopedEntities(key)`: the members of the first scope with that key,
      or none when the table has no such key. */
  function ScopedAt(e: Entity, key: ScopeKey): (r: seq<Entity>)
    ensures (forall s | s in e.scopes :: s.key != key) ==> r == []
    ensures r != [] ==> exists s | s in e.scopes :: s.key == key && s.members == r
  {
    FirstScoped(e.scopes, key)
  }

  function FirstScoped(scopes: seq<Scope>, key: ScopeKey): (r: seq<Entity>)
    ensures (forall s | s in scopes :: s.key != key) ==> r == []
    ensures r != [] ==> exists s | s in scopes :: s.key == key && s.members == r
  {
    if |scopes| == 0 then []
    else if scopes[0].key == key then scopes[0].members
    else FirstScoped(scopes[1..], key)
  }

  /** A visitor context. `NullContext` is Java `null`; any other context can
      report its top-level entity. `tag` distinguishes contexts that a
      visitor derives from one another. */
  datatype Context = NullContext | Ctx(top: Entity, tag: int)

  /** How an assignment-family node assigns: plain, or compound with the
      pre/post flag the Op hooks receive. */
  datatype AssignMode = Plain | Op(pre: bool)

  /** The intermediate "done" hooks fired between children. */
  datatype Mid =
    | LoopHeaderDone          // leaveLoopHeader
    | ConditionDone           // leaveIfStmtCondition / leaveIfExprCondition
    | TrueClauseDone          // leaveIfStmtTrueClause / leaveIfExprTrueClause
    | FieldInitDone(i: nat)   // leaveObjectLiteralFieldInit(n, i)
    | ArrayObjectDone         // leaveArrayLiteralObject
    | ElementInitDone(i: nat) // leaveArrayLiteralInitElement(n, i)
    | SwitchValueDone         // leaveSwitchValue
    | TryBlockDone            // leaveTryBlock

  /** One call of a visitor hook, with the arguments the walker passes.
      Which per-kind hook is meant follows from the kind of the node or entity
      (e.g. `VisitNode` on a `Loop` node is `visitLoop`). */
  datatype Event =
    | EnterEntity(e: Entity, ctx: Context)
    | MakeEntityContext(e: Entity, ctx: Context)          // makeFile/Type/CodeContext
    | VisitEntity(e: Entity, ctx: Context, inner: Context) // visitFileEntity, ...; inner: the derived context (ctx for fields)
    | LeaveEntity(e: Entity, ctx: Context, inner: Context)
    | DoVisitEntity(e: Entity, ctx: Context)
    | PostProcessEntity(e: Entity, ctx: Context)
    | EnterNode(n: Node, ctx: Context)
    | VisitNode(n: Node, ctx: Context)                     // visitCall, visitLoop, ...
    | MidNode(n: Node, mid: Mid, ctx: Context)
    | LeaveNode(n: Node, ctx: Context)                     // leaveCall, leaveLoop, ...
    | MakeLocalContext(n: Node, ctx: Context)
    | MakeUnwindContext(cleanup: Node, ctx: Context)
    | DoVisit(n: Node, ctx: Context)
    | PostProcessNode(n: Node, ctx: Context)
    | VisitLvalue(n: Node, rhs: Node, assign: Node, mode: AssignMode, ctx: Context) // visitArrayRefAssign(Op), ...
    | LeaveLvalue(n: Node, rhs: Node, assign: Node, mode: AssignMode, ctx: Context)
    | DoVisitAssignNodes(n: Node, rhs: Node, assign: Node, ctx: Context)

  /** The fatal conditions that abort a walk. */
  datatype Failure =
    | UnhandledEntity(entityKind: EntityKind)   // doVisitEntity declined
    | UnhandledNode(nodeKind: NodeKind)         // doVisit declined
    | UnhandledLvalue(targetKind: NodeKind)     // doVisitAssignNodes declined
    | MalformedIfGoto(count: nat)
    | MalformedLabel(count: nat)
    | MissingChild(parentKind: NodeKind, index: int)
    | Exhausted                                 // entity nesting deeper than the fuel

  datatype Outcome = Normal | Fatal(failure: Failure)

  /** What a subclass's hooks decide. `answer` gives the boolean every
      short-circuiting hook returns and `make` the context every make*Context
      returns; both may depend on the events that came before. */
  datatype Hooks = Hooks(answer: (seq<Event>, Event) -> bool, make: (seq<Event>, Event) -> Context)

  /** The base class's own behaviour: no hook short-circuits, no extension
      handles anything, and every make*Context returns its context argument. */
  function DefaultHooks(): Hooks
  {
    Hooks((history, ev) => false, (history, ev) => ContextOf(ev))
  }

  /** The context argument a hook call received. */
  function ContextOf(ev: Event): Context
  {
    ev.ctx
  }

  /** The mode of an assignment-family node: only ASSIGN is plain, and the
      Op hooks get `pre` exactly for ASSIGN_PRE_OP. */
  function ModeOf(a: Node): (m: AssignMode)
    ensures m == Plain <==> a.kind == Assign
    ensures m.Op? ==> (m.pre <==> a.kind == AssignPreOp)
  {
    if a.kind == Assign then Plain else Op(a.kind == AssignPreOp)
  }
}
