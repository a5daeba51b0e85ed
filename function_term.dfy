/**
 * `com.ibm.wala.logic.FunctionTerm`: a function symbol applied to a list of
 * parameter terms. The other term classes (`IntConstant`, `Variable`) and
 * `IFunction` are not part of this model beyond what a function term asks of
 * them: their identity, their hash, their text and their free variables.
 */
module LogicTerms {
  import opened Wrappers
  import opened JavaText

  /** An `IFunction`: its symbol and number of parameters, plus the value
      `hashCode` returns for it. Equality is structural; `id` tells apart
      functions that share a symbol. */
  datatype Function = Function(symbol: string, arity: nat, id: nat, hash: Int32)

  /** A logic `Variable`, by identity, with its `hashCode`. */
  datatype Variable = Variable(id: nat, hash: Int32)

  datatype Term =
    | FunctionTerm(f: Function, parameters: seq<Term>)
    | IntConstant(value: Int32)
    | VariableTerm(v: Variable)

  /** The terms of class `FunctionTerm`. */
  type FnTerm = t: Term | t.FunctionTerm? witness FunctionTerm(Function("f", 0, 0, 0), [])

  datatype TermKind = CONSTANT | VARIABLE | FUNCTION

  /** What the term classes not shown here contribute: the hash and text of
      a constant or variable. */
  datatype Leaves = Leaves(hash: Term -> Int32, text: Term -> string)

  datatype Thrown = IllegalArgument | IndexOutOfBounds(index: int)

  // ---------------------------------------------------------------- building

  /** `make(f, terms)`, through the private constructor: a null function
      throws `IllegalArgumentException`. */
  function Make(f: Option<Function>, terms: seq<Term>): (r: Result<FnTerm, Thrown>)
    ensures f.None? <==> r == Err(IllegalArgument)
    ensures r.Ok? ==> GetFunction(r.value) == f.value && GetParameters(r.value) == terms
  {
    if f.None? then Err(IllegalArgument) else Ok(FunctionTerm(f.value, terms))
  }

  /** `make(UnaryFunction f, int i)`. */
  function MakeUnaryInt(f: Option<Function>, i: Int32): (r: Result<FnTerm, Thrown>)
  {
    Make(f, [IntConstant(i)])
  }

  /** `make(UnaryFunction f, ITerm t)`. */
  function MakeUnary(f: Option<Function>, t: Term): (r: Result<FnTerm, Thrown>)
  {
    Make(f, [t])
  }

  /** `make(BinaryFunction f, int i, int j)`. */
  function MakeBinaryInt(f: Option<Function>, i: Int32, j: Int32): (r: Result<FnTerm, Thrown>)
  {
    Make(f, [IntConstant(i), IntConstant(j)])
  }

  /** `make(BinaryFunction f, ITerm i, int j)`. */
  function MakeBinaryTermInt(f: Option<Function>, i: Term, j: Int32): (r: Result<FnTerm, Thrown>)
  {
    Make(f, [i, IntConstant(j)])
  }

  /** `make(BinaryFunction f, ITerm i, ITerm j)`. */
  function MakeBinary(f: Option<Function>, i: Term, j: Term): (r: Result<FnTerm, Thrown>)
  {
    Make(f, [i, j])
  }

  function GetFunction(t: FnTerm): Function
  {
    t.f
  }

  /** `getParameters`: a read-only view of the stored list. */
  function GetParameters(t: FnTerm): seq<Term>
  {
    t.parameters
  }

  function GetKind(t: FnTerm): TermKind
  {
    FUNCTION
  }

  /** The factories with one argument give one parameter, those with two
      give two in argument order, an `int` argument becomes an `IntConstant`,
      and every term they build is of kind FUNCTION. */
  lemma FactoryShapes(f: Function, i: Int32, j: Int32, s: Term, t: Term)
    ensures MakeUnaryInt(Some(f), i).Ok? && GetParameters(MakeUnaryInt(Some(f), i).value) == [IntConstant(i)]
    ensures MakeUnary(Some(f), s).Ok? && GetParameters(MakeUnary(Some(f), s).value) == [s]
    ensures MakeBinaryInt(Some(f), i, j).Ok? && GetParameters(MakeBinaryInt(Some(f), i, j).value) == [IntConstant(i), IntConstant(j)]
    ensures MakeBinaryTermInt(Some(f), s, j).Ok? && GetParameters(MakeBinaryTermInt(Some(f), s, j).value) == [s, IntConstant(j)]
    ensures MakeBinary(Some(f), s, t).Ok? && GetParameters(MakeBinary(Some(f), s, t).value) == [s, t]
    ensures GetKind(MakeBinary(Some(f), s, t).value) == FUNCTION
  {
  }

  // ---------------------------------------------------------- free variables

  /** `getFreeVariables` of any term: a constant has none, a variable is its
      own, and a function term has those of its parameters. */
  function FreeVariables(t: Term): set<Variable>
    decreases t, 1
  {
    match t
    case FunctionTerm(_, ps) => ParamsFree(t, |ps|)
    case IntConstant(_) => {}
    case VariableTerm(v) => {v}
  }

  /** The free variables of the first `k` parameters of `t`. */
  function ParamsFree(t: Term, k: nat): set<Variable>
    requires t.FunctionTerm? && k <= |t.parameters|
    decreases t, 0, k
  {
    if k == 0 then {} else ParamsFree(t, k - 1) + FreeVariables(t.parameters[k - 1])
  }

  /** Variable `x` appears somewhere inside `t`. */
  predicate Occurs(x: Variable, t: Term)
    decreases t
  {
    match t
    case FunctionTerm(_, ps) => exists i | 0 <= i < |ps| :: Occurs(x, ps[i])
    case IntConstant(_) => false
    case VariableTerm(v) => v == x
  }

  lemma {:induction false} ParamsFreeMembers(t: Term, k: nat)
    requires t.FunctionTerm? && k <= |t.parameters|
    ensures forall x :: x in ParamsFree(t, k) <==> exists i | 0 <= i < k :: x in FreeVariables(t.parameters[i])
    decreases k
  {
    if k > 0 {
      ParamsFreeMembers(t, k - 1);
    }
  }

  /** The free variables of a term are exactly the variables occurring in it. */
  lemma {:induction false} FreeVariablesOccur(t: Term, x: Variable)
    ensures x in FreeVariables(t) <==> Occurs(x, t)
    decreases t
  {
    if t.FunctionTerm? {
      var ps := t.parameters;
      ParamsFreeMembers(t, |ps|);
      forall i | 0 <= i < |ps| ensures x in FreeVariables(ps[i]) <==> Occurs(x, ps[i]) {
        FreeVariablesOccur(ps[i], x);
      }
    }
  }

  /** `getFreeVariables()`: the union, over the parameters in order, of
      their free variables; empty when there are no parameters. */
  method GetFreeVariables(t: FnTerm) returns (result: set<Variable>)
    ensures forall x :: x in result <==> exists i | 0 <= i < |t.parameters| :: x in FreeVariables(t.parameters[i])
    ensures t.parameters == [] ==> result == {}
    ensures result == FreeVariables(t)
  {
    result := {};
    var i := 0;
    while i < |t.parameters|
      invariant 0 <= i <= |t.parameters|
      invariant result == ParamsFree(t, i)
    {
      result := result + FreeVariables(t.parameters[i]);
      i := i + 1;
    }
    ParamsFreeMembers(t, |t.parameters|);
  }

  // ---------------------------------------------------------------- equality

  /** `equals(obj)` of a function term, with `None` for null: only another
      function term with an equal function and an equal parameter list is
      equal. Parameter lists compare element by element with each element's
      own `equals`, structural for constants and variables. */
  function Equals(t: FnTerm, obj: Option<Term>): bool
    decreases t, 1
  {
    if obj.None? then false
    else if !obj.value.FunctionTerm? then false
    else t.f == obj.value.f && ListEquals(t, obj.value.parameters, 0)
  }

  /** `List.equals` from index `i` on. */
  function ListEquals(t: FnTerm, other: seq<Term>, i: nat): bool
    requires i <= |t.parameters|
    decreases t, 0, |t.parameters| - i
  {
    if i == |t.parameters| then i == |other|
    else i < |other| && ElementEquals(t.parameters[i], other[i]) && ListEquals(t, other, i + 1)
  }

  function ElementEquals(a: Term, b: Term): bool
    decreases a, 2
  {
    if a.FunctionTerm? then Equals(a, Some(b)) else a == b
  }

  lemma {:induction false} ListEqualsMeans(t: FnTerm, other: seq<Term>, i: nat)
    requires i <= |t.parameters|
    ensures ListEquals(t, other, i) <==> other[..] == other && |other| == |t.parameters| && t.parameters[i..] == other[i..]
    decreases t, 0, |t.parameters| - i
  {
    if i < |t.parameters| && i < |other| {
      ElementEqualsMeans(t.parameters[i], other[i]);
      ListEqualsMeans(t, other, i + 1);
      assert t.parameters[i..] == [t.parameters[i]] + t.parameters[i + 1..];
      if |other| == |t.parameters| {
        assert other[i..] == [other[i]] + other[i + 1..];
      }
    }
  }

  lemma {:induction false} ElementEqualsMeans(a: Term, b: Term)
    ensures ElementEquals(a, b) <==> a == b
    decreases a, 2
  {
    if a.FunctionTerm? {
      EqualsMeans(a, Some(b));
    }
  }

  /** `equals` is structural equality: two terms are equal exactly when they
      have the same function and equal parameter lists. In particular it is
      reflexive and symmetric. */
  lemma {:induction false} EqualsMeans(t: FnTerm, obj: Option<Term>)
    ensures Equals(t, obj) <==> obj.Some? && obj.value == t
    decreases t, 1
  {
    if obj.Some? && obj.value.FunctionTerm? {
      ListEqualsMeans(t, obj.value.parameters, 0);
      if t.f == obj.value.f && t.parameters == obj.value.parameters {
        assert obj.value == t;
      }
    }
  }

  // ----------------------------------------------------------------- hashing

  /** `hashCode()` of any term; constants and variables bring their own. */
  function Hash(t: Term, leaves: Leaves): Int32
    decreases t, 1
  {
    if t.FunctionTerm? then Wrap(31 * Wrap(31 * 1 + t.f.hash) + ListHash(t, |t.parameters|, leaves))
    else leaves.hash(t)
  }

  /** `List.hashCode` of the first `k` parameters: h = 31 * h + element hash,
      starting from 1. */
  function ListHash(t: Term, k: nat, leaves: Leaves): Int32
    requires t.FunctionTerm? && k <= |t.parameters|
    decreases t, 0, k
  {
    if k == 0 then 1 else Wrap(31 * ListHash(t, k - 1, leaves) + Hash(t.parameters[k - 1], leaves))
  }

  /** Terms that `equals` calls equal have the same hash. */
  lemma EqualTermsHashEqually(t: FnTerm, u: FnTerm, leaves: Leaves)
    requires Equals(t, Some(u))
    ensures Hash(t, leaves) == Hash(u, leaves)
  {
    EqualsMeans(t, Some(u));
  }

  // ---------------------------------------------------------------- printing

  /** `toString()` of any term. A function term shows its symbol and its
      first `arity` parameters; `fixed` selects whether a function without
      parameters is shown as `symbol()` or, as the code is written, throws
      while fetching parameter -1. Fetching a parameter past the end of the
      list throws too. */
  function Render(t: Term, leaves: Leaves, fixed: bool): Result<string, Thrown>
    decreases t, 1
  {
    if !t.FunctionTerm? then Ok(leaves.text(t))
    else if t.f.arity == 0 then
      if fixed then Ok(t.f.symbol + "()") else Err(IndexOutOfBounds(-1))
    else
      var last := t.f.arity - 1;
      var front := Front(t, last, leaves, fixed);
      if front.Err? then front
      else if last >= |t.parameters| then Err(IndexOutOfBounds(last))
      else
        var p := Render(t.parameters[last], leaves, fixed);
        if p.Err? then p else Ok(t.f.symbol + "(" + front.value + p.value + ")")
  }

  /** The text the `toString` loop has appended after `k` rounds: each of
      the first `k` parameters followed by ",". */
  function Front(t: Term, k: nat, leaves: Leaves, fixed: bool): Result<string, Thrown>
    requires t.FunctionTerm?
    decreases t, 0, k
  {
    if k == 0 then Ok("")
    else
      var before := Front(t, k - 1, leaves, fixed);
      if before.Err? then before
      else if k - 1 >= |t.parameters| then Err(IndexOutOfBounds(k - 1))
      else
        var p := Render(t.parameters[k - 1], leaves, fixed);
        if p.Err? then p else Ok(before.value + p.value + ",")
  }

  /** `toString()`: the StringBuffer loop over the first `arity` parameters.
      With `fixed` false it is the code as written; with `fixed` true a
      function of no parameters prints as `symbol()`. */
  method ToString(t: FnTerm, leaves: Leaves, fixed: bool) returns (r: Result<string, Thrown>)
    ensures r == Render(t, leaves, fixed)
  {
    var arity := t.f.arity;
    if arity == 0 {
      if fixed {
        return Ok(t.f.symbol + "()");
      }
      return Err(IndexOutOfBounds(-1));
    }
    var buffer := "";
    var i := 0;
    while i < arity - 1
      invariant 0 <= i <= arity - 1
      invariant Front(t, i, leaves, fixed) == Ok(buffer)
    {
      if i >= |t.parameters| {
        FrontErrorSticks(t, i + 1, arity - 1, leaves, fixed);
        return Err(IndexOutOfBounds(i));
      }
      var p := Render(t.parameters[i], leaves, fixed);
      if p.Err? {
        FrontErrorSticks(t, i + 1, arity - 1, leaves, fixed);
        return p;
      }
      buffer := buffer + p.value + ",";
      i := i + 1;
    }
    if arity - 1 >= |t.parameters| {
      return Err(IndexOutOfBounds(arity - 1));
    }
    var p := Render(t.parameters[arity - 1], leaves, fixed);
    if p.Err? {
      return p;
    }
    r := Ok(t.f.symbol + "(" + buffer + p.value + ")");
  }

  /** Once fetching or printing a parameter has thrown, the loop throws
      that same exception. */
  lemma {:induction false} FrontErrorSticks(t: Term, i: nat, k: nat, leaves: Leaves, fixed: bool)
    requires t.FunctionTerm? && i <= k && Front(t, i, leaves, fixed).Err?
    ensures Front(t, k, leaves, fixed) == Front(t, i, leaves, fixed)
    decreases k - i
  {
    if i < k {
      FrontErrorSticks(t, i, k - 1, leaves, fixed);
    }
  }

  /** As written, a function of no parameters makes `toString` throw,
      whatever parameters the term holds. */
  lemma NullaryToStringThrows(f: Function, ps: seq<Term>, leaves: Leaves)
    requires f.arity == 0
    ensures Render(FunctionTerm(f, ps), leaves, false) == Err(IndexOutOfBounds(-1))
  {
  }

  /** Fixed, a function of no parameters prints as its symbol and `()`. */
  lemma NullaryToStringFixed(f: Function, ps: seq<Term>, leaves: Leaves)
    requires f.arity == 0
    ensures Render(FunctionTerm(f, ps), leaves, true) == Ok(f.symbol + "()")
  {
  }

  /** The texts of the parameters `ps`, each rendered in full. */
  function Texts(ps: seq<Term>, leaves: Leaves): Option<seq<string>>
  {
    if ps == [] then Some([])
    else
      var head := Render(ps[0], leaves, true);
      var rest := Texts(ps[1..], leaves);
      if head.Err? || rest.None? then None else Some([head.value] + rest.value)
  }

  lemma {:induction false} FrontJoins(t: FnTerm, k: nat, leaves: Leaves)
    requires k <= |t.parameters| && Texts(t.parameters[..k], leaves).Some?
    ensures var texts := Texts(t.parameters[..k], leaves).value;
      |texts| == k && Front(t, k, leaves, true) == Ok(JoinAfter(texts, ","))
    decreases k
  {
    var ps := t.parameters;
    if k > 0 {
      TextsSnoc(ps[..k - 1], ps[k - 1], leaves);
      assert ps[..k] == ps[..k - 1] + [ps[k - 1]];
      FrontJoins(t, k - 1, leaves);
      JoinAfterSnoc(Texts(ps[..k - 1], leaves).value, Render(ps[k - 1], leaves, true).value, ",");
    }
  }

  /** Each string of `parts` followed by `sep`. */
  function JoinAfter(parts: seq<string>, sep: string): string
  {
    if parts == [] then "" else parts[0] + sep + JoinAfter(parts[1..], sep)
  }

  lemma {:induction false} JoinAfterSnoc(parts: seq<string>, last: string, sep: string)
    ensures JoinAfter(parts + [last], sep) == JoinAfter(parts, sep) + last + sep
  {
    if parts != [] {
      assert (parts + [last])[1..] == parts[1..] + [last];
      JoinAfterSnoc(parts[1..], last, sep);
    } else {
      assert [last][1..] == [];
    }
  }

  lemma {:induction false} JoinAfterThenLast(parts: seq<string>, last: string, sep: string)
    ensures JoinAfter(parts, sep) + last == Join(parts + [last], sep)
  {
    if parts != [] {
      assert (parts + [last])[1..] == parts[1..] + [last];
      JoinAfterThenLast(parts[1..], last, sep);
    }
  }

  lemma {:induction false} TextsSnoc(ps: seq<Term>, p: Term, leaves: Leaves)
    ensures Texts(ps + [p], leaves) ==
      if Texts(ps, leaves).None? || Render(p, leaves, true).Err? then None
      else Some(Texts(ps, leaves).value + [Render(p, leaves, true).value])
  {
    if ps == [] {
      assert ps + [p] == [p] && [p][1..] == [];
      var last := Render(p, leaves, true);
      if last.Ok? {
        assert [last.value] + [] == [] + [last.value];
      }
    } else {
      assert (ps + [p])[0] == ps[0] && (ps + [p])[1..] == ps[1..] + [p];
      TextsSnoc(ps[1..], p, leaves);
      var head := Render(ps[0], leaves, true);
      var rest := Texts(ps[1..], leaves);
      var last := Render(p, leaves, true);
      if head.Ok? && rest.Some? && last.Ok? {
        assert [head.value] + (rest.value + [last.value]) == ([head.value] + rest.value) + [last.value];
      }
    }
  }

  /** `toString` of a function of positive arity `a` whose parameters all
      print: the symbol, then the first `a` parameters joined by ",", in
      parentheses; parameters past the arity are not shown. */
  lemma RenderShape(t: FnTerm, leaves: Leaves)
    requires 0 < t.f.arity <= |t.parameters|
    requires Texts(t.parameters[..t.f.arity], leaves).Some?
    ensures Render(t, leaves, true)
      == Ok(t.f.symbol + "(" + Join(Texts(t.parameters[..t.f.arity], leaves).value, ",") + ")")
  {
    var a := t.f.arity;
    var ps := t.parameters;
    assert ps[..a] == ps[..a - 1] + [ps[a - 1]];
    TextsSnoc(ps[..a - 1], ps[a - 1], leaves);
    var front := Texts(ps[..a - 1], leaves).value;
    var last := Render(ps[a - 1], leaves, true).value;
    assert Texts(ps[..a], leaves).value == front + [last];
    FrontJoins(t, a - 1, leaves);
    JoinAfterThenLast(front, last, ",");
    assert Front(t, a - 1, leaves, true) == Ok(JoinAfter(front, ","));
    assert Render(ps[a - 1], leaves, true) == Ok(last);
    assert Render(t, leaves, true) == Ok(t.f.symbol + "(" + JoinAfter(front, ",") + last + ")");
    assert JoinAfter(front, ",") + last == Join(front + [last], ",");
    assert t.f.symbol + "(" + JoinAfter(front, ",") + last + ")"
      == t.f.symbol + "(" + (JoinAfter(front, ",") + last) + ")";
  }

  /** Wherever the code as written prints a term, the fixed version prints
      the same text. */
  lemma {:induction false} FixAgrees(t: Term, leaves: Leaves)
    requires Render(t, leaves, false).Ok?
    ensures Render(t, leaves, true) == Render(t, leaves, false)
    decreases t, 1
  {
    if t.FunctionTerm? {
      var last := t.f.arity - 1;
      FrontAgrees(t, last, leaves);
      RenderAgreesAt(t, last, leaves);
    }
  }

  lemma {:induction false} RenderAgreesAt(t: Term, i: nat, leaves: Leaves)
    requires t.FunctionTerm? && i < |t.parameters| && Render(t.parameters[i], leaves, false).Ok?
    ensures Render(t.parameters[i], leaves, true) == Render(t.parameters[i], leaves, false)
    decreases t, 0, 0
  {
    FixAgrees(t.parameters[i], leaves);
  }

  lemma {:induction false} FrontAgrees(t: Term, k: nat, leaves: Leaves)
    requires t.FunctionTerm? && Front(t, k, leaves, false).Ok?
    ensures Front(t, k, leaves, true) == Front(t, k, leaves, false)
    decreases t, 0, k
  {
    if k > 0 {
      FrontAgrees(t, k - 1, leaves);
      RenderAgreesAt(t, k - 1, leaves);
    }
  }
}
