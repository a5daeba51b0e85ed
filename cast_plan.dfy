/**
 * The fixed, kind-specific order in which `CAstVisitor.visit` handles a node,
 * written as a plan of steps that the walker executes one after the other.
 * A plan depends only on the node's kind and its number of children.
 */
module CAstPlan {
  import opened CAstTree

  /** Which context a child is visited under: the one `visit` received or
      the one derived by a MakeLocal/MakeUnwind step. */
  datatype Sel = Outer | Derived

  datatype Step =
    | VisitHook                     // visitXxx(n, c); the rest is skipped when it returns true
    | Child(index: nat, sel: Sel)   // visit(n.getChild(index), ...)
    | ChildrenFrom(start: nat)      // visitChildren(n, start, c)
    | MidHook(mid: Mid)             // an intermediate leave hook
    | Leave                         // leaveXxx(n, c)
    | MakeLocal                     // makeLocalContext(c, n)
    | MakeUnwind                    // makeUnwindContext(c, n.getChild(1))
    | AssignTarget                  // visitAssignNodes(n.getChild(0), c, n.getChild(1), n); true skips the rest
    | Extension                     // doVisit(n, c); fatal when it returns false
    | Halt(failure: Failure)        // an assertion of the walker fails

  /** `visitChildren`'s counterpart is a single step; the literal loops of
      OBJECT_LITERAL and ARRAY_LITERAL are laid out child by child. */
  function Plan(n: Node): seq<Step>
  {
    var count := |n.children|;
    match n.kind
    case FunctionExpr => [VisitHook, Leave]
    case FunctionStmt => [VisitHook, Leave]
    case LocalScope => [VisitHook, MakeLocal, Child(0, Derived), Leave]
    case BlockExpr => [VisitHook, ChildrenFrom(0), Leave]
    case BlockStmt => [VisitHook, ChildrenFrom(0), Leave]
    case Loop => [VisitHook, Child(0, Outer), MidHook(LoopHeaderDone), Child(1, Outer), Leave]
    case GetCaughtException => [VisitHook, Leave]
    case This => [VisitHook, Leave]
    case Super => [VisitHook, Leave]
    case Call => [VisitHook, Child(0, Outer), ChildrenFrom(2), Leave]
    case Var => [VisitHook, Leave]
    case Constant => [VisitHook, Leave]
    case BinaryExpr => [VisitHook, Child(1, Outer), Child(2, Outer), Leave]
    case UnaryExpr => [VisitHook, Child(1, Outer), Leave]
    case ArrayLength => [VisitHook, Child(0, Outer), Leave]
    case ArrayRef => [VisitHook, Child(0, Outer), ChildrenFrom(2), Leave]
    case DeclStmt => [VisitHook] + (if count == 4 then [Child(3, Outer)] else []) + [Leave]
    case Return => [VisitHook] + (if count > 0 then [Child(0, Outer)] else []) + [Leave]
    case IfGoto =>
      [VisitHook]
      + (if count == 1 then [Child(0, Outer)]
         else if count == 3 then [Child(1, Outer), Child(2, Outer)]
         else [Halt(MalformedIfGoto(count))])
      + [Leave]
    case Goto => [VisitHook, Leave]
    case LabelStmt =>
      [VisitHook, Child(0, Outer)]
      + (if count == 2 then [Child(1, Outer)] else if count < 2 then [] else [Halt(MalformedLabel(count))])
      + [Leave]
    case IfStmt => IfPlan(count)
    case IfExpr => IfPlan(count)
    case New => [VisitHook, ChildrenFrom(1), Leave]
    case ObjectLiteral => [VisitHook, Child(0, Outer)] + FieldInits(1, count) + [Leave]
    case ArrayLiteral => [VisitHook, Child(0, Outer), MidHook(ArrayObjectDone)] + ElementInits(1, count) + [Leave]
    case ObjectRef => [VisitHook, Child(0, Outer), Leave]
    case Assign => AssignPlan()
    case AssignPreOp => AssignPlan()
    case AssignPostOp => AssignPlan()
    case Switch => [VisitHook, Child(0, Outer), MidHook(SwitchValueDone), Child(1, Outer), Leave]
    case Throw => [VisitHook, Child(0, Outer), Leave]
    case Catch => [VisitHook, ChildrenFrom(1), Leave]
    case Unwind => [VisitHook, MakeUnwind, Child(0, Derived), Child(1, Outer), Leave]
    case Try => [VisitHook, Child(0, Outer), MidHook(TryBlockDone), Child(1, Outer), Leave]
    case Empty => [VisitHook, Leave]
    case Primitive => [VisitHook, Leave]
    case Void => [VisitHook, Leave]
    case Cast => [VisitHook, Child(1, Outer), Leave]
    case InstanceOf => [VisitHook, Child(1, Outer), Leave]
    case Assert => [VisitHook, Child(0, Outer), Leave]
    case EachElementGet => [VisitHook, Child(0, Outer), Leave]
    case EachElementHasNext => [VisitHook, Child(0, Outer), Leave]
    case TypeLiteralExpr => [VisitHook, Child(0, Outer), Leave]
    case OtherNode(_) => [Extension]
  }

  function IfPlan(count: nat): seq<Step>
  {
    [VisitHook, Child(0, Outer), MidHook(ConditionDone), Child(1, Outer), MidHook(TrueClauseDone)]
    + (if count == 3 then [Child(2, Outer)] else [])
    + [Leave]
  }

  function AssignPlan(): seq<Step>
  {
    [VisitHook, Child(1, Outer), AssignTarget, Leave]
  }

  /** The body of `for (i = from; i < count; i += 2)`: each key/value pair
      followed by its field-initialised hook. */
  function FieldInits(from: nat, count: nat): seq<Step>
    decreases count - from
  {
    if from < count then [Child(from, Outer), Child(from + 1, Outer), MidHook(FieldInitDone(from))] + FieldInits(from + 2, count)
    else []
  }

  /** The body of `for (i = from; i < count; i++)`: each element followed by
      its element-initialised hook. */
  function ElementInits(from: nat, count: nat): seq<Step>
    decreases count - from
  {
    if from < count then [Child(from, Outer), MidHook(ElementInitDone(from))] + ElementInits(from + 1, count)
    else []
  }
}
