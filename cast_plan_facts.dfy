/**
 * Facts about the kind-specific plans: which children each kind visits and
 * in what order, where its intermediate hooks fall, and which child counts
 * a plan can run to completion with.
 */
module CAstPlanFacts {
  import opened CAstTree
  import opened CAstPlan

  /** The indices `from`, `from + 1`, ..., `to - 1`. */
  function Range(from: nat, to: nat): (r: seq<nat>)
    ensures |r| == if from < to then to - from else 0
    ensures forall k :: (k in r) <==> (from <= k < to)
    decreases if from < to then to - from else 0
  {
    if from < to then [from] + Range(from + 1, to) else []
  }

  /** The children a step visits as nodes, in order, when the node has
      `count` children. */
  function StepVisits(s: Step, count: nat): seq<nat>
  {
    match s
    case Child(k, _) => [k]
    case ChildrenFrom(start) => Range(start, count)
    case _ => []
  }

  /** The children a plan visits as nodes, in order. */
  function PlanVisits(plan: seq<Step>, count: nat): seq<nat>
  {
    if |plan| == 0 then [] else StepVisits(plan[0], count) + PlanVisits(plan[1..], count)
  }

  ghost predicate Ascending(s: seq<nat>)
  {
    forall i, j | 0 <= i < j < |s| :: s[i] < s[j]
  }

  lemma AscendingConcat(a: seq<nat>, b: seq<nat>)
    requires Ascending(a) && Ascending(b)
    requires forall x, y | x in a && y in b :: x < y
    ensures Ascending(a + b)
  {
    forall i, j | 0 <= i < j < |a + b| ensures (a + b)[i] < (a + b)[j] {
      if j < |a| {
      } else if i >= |a| {
        assert (a + b)[i] == b[i - |a|] && (a + b)[j] == b[j - |a|];
      } else {
        assert (a + b)[i] == a[i] && (a + b)[j] == b[j - |a|];
        assert a[i] in a && b[j - |a|] in b;
      }
    }
  }

  lemma {:induction false} RangeAscending(from: nat, to: nat)
    ensures Ascending(Range(from, to))
    decreases if from < to then to - from else 0
  {
    if from < to {
      RangeAscending(from + 1, to);
      AscendingConcat([from], Range(from + 1, to));
    }
  }

  lemma PlanVisitsConcat(p: seq<Step>, q: seq<Step>, count: nat)
    ensures PlanVisits(p + q, count) == PlanVisits(p, count) + PlanVisits(q, count)
  {
    var vq := PlanVisits(q, count);
    if |p| == 0 {
      assert p + q == q;
      assert [] + vq == vq;
    } else {
      var pq := p + q;
      assert pq[0] == p[0] && pq[1..] == p[1..] + q;
      PlanVisitsConcat(p[1..], q, count);
      var a := StepVisits(p[0], count);
      var b := PlanVisits(p[1..], count);
      assert PlanVisits(pq, count) == a + (b + vq);
      assert a + (b + vq) == (a + b) + vq;
    }
  }


  lemma PlanVisits1(a: Step, count: nat)
    ensures PlanVisits([a], count) == StepVisits(a, count)
  {
    assert [a][1..] == [];
  }

  /** One step more at the end of a plan visits what that step visits. */
  lemma PlanVisitsSnoc(p: seq<Step>, a: Step, count: nat)
    ensures PlanVisits(p + [a], count) == PlanVisits(p, count) + StepVisits(a, count)
  {
    PlanVisitsConcat(p, [a], count);
    PlanVisits1(a, count);
  }

  lemma PlanVisits2(a: Step, b: Step, count: nat)
    ensures PlanVisits([a, b], count) == StepVisits(a, count) + StepVisits(b, count)
  {
    assert [a, b] == [a] + [b];
    PlanVisitsSnoc([a], b, count);
    PlanVisits1(a, count);
  }

  lemma PlanVisits3(a: Step, b: Step, c: Step, count: nat)
    ensures PlanVisits([a, b, c], count) == StepVisits(a, count) + StepVisits(b, count) + StepVisits(c, count)
  {
    assert [a, b, c] == [a, b] + [c];
    PlanVisitsSnoc([a, b], c, count);
    PlanVisits2(a, b, count);
  }

  lemma PlanVisits4(a: Step, b: Step, c: Step, d: Step, count: nat)
    ensures PlanVisits([a, b, c, d], count)
      == StepVisits(a, count) + StepVisits(b, count) + StepVisits(c, count) + StepVisits(d, count)
  {
    assert [a, b, c, d] == [a, b, c] + [d];
    PlanVisitsSnoc([a, b, c], d, count);
    PlanVisits3(a, b, c, count);
  }

  lemma PlanVisits5(a: Step, b: Step, c: Step, d: Step, e: Step, count: nat)
    ensures PlanVisits([a, b, c, d, e], count)
      == StepVisits(a, count) + StepVisits(b, count) + StepVisits(c, count) + StepVisits(d, count) + StepVisits(e, count)
  {
    assert [a, b, c, d, e] == [a, b, c, d] + [e];
    PlanVisitsSnoc([a, b, c, d], e, count);
    PlanVisits4(a, b, c, d, count);
  }

  /** CALL visits the callee and then every argument, and never child 1. */
  lemma CallVisits(n: Node)
    requires n.kind == Call && |n.children| >= 1
    ensures var v := PlanVisits(Plan(n), |n.children|);
      Ascending(v) && forall k: nat :: k in v <==> k < |n.children| && k != 1
  {
    var c := |n.children|;
    PlanVisits4(VisitHook, Child(0, Outer), ChildrenFrom(2), Leave, c);
    var v := PlanVisits(Plan(n), c);
    assert v == [0] + Range(2, c);
    RangeAscending(2, c);
    AscendingConcat([0], Range(2, c));
    forall k: nat ensures k in v <==> k < c && k != 1 {
      assert k in v <==> k == 0 || k in Range(2, c);
    }
  }

  /** BINARY_EXPR visits its operands, children 1 and 2, and not the
      operator; UNARY_EXPR visits only its operand, child 1. */
  lemma OperatorVisits(n: Node)
    requires n.kind == BinaryExpr || n.kind == UnaryExpr
    ensures n.kind == BinaryExpr ==> PlanVisits(Plan(n), |n.children|) == [1, 2]
    ensures n.kind == UnaryExpr ==> PlanVisits(Plan(n), |n.children|) == [1]
  {
    PlanVisits4(VisitHook, Child(1, Outer), Child(2, Outer), Leave, |n.children|);
    PlanVisits3(VisitHook, Child(1, Outer), Leave, |n.children|);
  }

  /** NEW and CATCH skip child 0 and visit all the others in order. */
  lemma SkipFirstVisits(n: Node)
    requires n.kind == New || n.kind == Catch
    ensures var v := PlanVisits(Plan(n), |n.children|);
      Ascending(v) && forall k :: k in v <==> 1 <= k < |n.children|
  {
    var c := |n.children|;
    assert Plan(n) == [VisitHook, ChildrenFrom(1), Leave];
    PlanVisits3(VisitHook, ChildrenFrom(1), Leave, c);
    assert PlanVisits(Plan(n), c) == [] + Range(1, c) + [];
    assert PlanVisits(Plan(n), c) == Range(1, c);
    RangeAscending(1, c);
  }

  /** The three assignment kinds visit the right-hand side, child 1, and only
      then dispatch on the target, child 0. */
  lemma AssignOrder(n: Node)
    requires n.kind == Assign || n.kind == AssignPreOp || n.kind == AssignPostOp
    ensures PlanVisits(Plan(n), |n.children|) == [1]
    ensures Plan(n)[1] == Child(1, Outer) && Plan(n)[2] == AssignTarget
  {
    PlanVisits4(VisitHook, Child(1, Outer), AssignTarget, Leave, |n.children|);
  }

  /** The field initialisations from child `from` on: for each pair `k`, the
      key, the value and then the hook for that pair, nothing else. */
  lemma {:induction false} FieldInitsShape(from: nat, count: nat)
    requires from <= count && (count - from) % 2 == 0
    ensures |FieldInits(from, count)| == 3 * ((count - from) / 2)
    ensures forall k | 0 <= k < (count - from) / 2 ::
      FieldInits(from, count)[3 * k .. 3 * k + 3]
        == [Child(from + 2 * k, Outer), Child(from + 2 * k + 1, Outer), MidHook(FieldInitDone(from + 2 * k))]
    decreases count - from
  {
    if from < count {
      var head := [Child(from, Outer), Child(from + 1, Outer), MidHook(FieldInitDone(from))];
      var rest := FieldInits(from + 2, count);
      FieldInitsShape(from + 2, count);
      assert FieldInits(from, count) == head + rest;
      forall k | 0 <= k < (count - from) / 2
        ensures FieldInits(from, count)[3 * k .. 3 * k + 3]
          == [Child(from + 2 * k, Outer), Child(from + 2 * k + 1, Outer), MidHook(FieldInitDone(from + 2 * k))]
      {
        if k > 0 {
          var j := k - 1;
          assert (head + rest)[3 * k .. 3 * k + 3] == rest[3 * j .. 3 * j + 3];
        }
      }
    }
  }

  /** OBJECT_LITERAL with N key/value pairs: child 0, then for each pair its
      key, its value and exactly one field-initialised hook, in order. */
  lemma ObjectLiteralOrder(n: Node, pairs: nat)
    requires n.kind == ObjectLiteral && |n.children| == 2 * pairs + 1
    ensures |Plan(n)| == 3 * pairs + 3
    ensures Plan(n)[..2] == [VisitHook, Child(0, Outer)] && Plan(n)[3 * pairs + 2] == Leave
    ensures forall k | 0 <= k < pairs ::
      Plan(n)[2 + 3 * k .. 5 + 3 * k] == [Child(1 + 2 * k, Outer), Child(2 + 2 * k, Outer), MidHook(FieldInitDone(1 + 2 * k))]
  {
    var c := |n.children|;
    FieldInitsShape(1, c);
    var f := FieldInits(1, c);
    assert Plan(n) == [VisitHook, Child(0, Outer)] + f + [Leave];
    forall k | 0 <= k < pairs
      ensures Plan(n)[2 + 3 * k .. 5 + 3 * k] == [Child(1 + 2 * k, Outer), Child(2 + 2 * k, Outer), MidHook(FieldInitDone(1 + 2 * k))]
    {
      assert Plan(n)[2 + 3 * k .. 5 + 3 * k] == f[3 * k .. 3 * k + 3];
    }
  }

  /** The element initialisations from child `from` on: each element
      followed by its own hook. */
  lemma {:induction false} ElementInitsShape(from: nat, count: nat)
    requires from <= count
    ensures |ElementInits(from, count)| == 2 * (count - from)
    ensures forall k | 0 <= k < count - from ::
      ElementInits(from, count)[2 * k] == Child(from + k, Outer)
      && ElementInits(from, count)[2 * k + 1] == MidHook(ElementInitDone(from + k))
    decreases count - from
  {
    if from < count {
      var head := [Child(from, Outer), MidHook(ElementInitDone(from))];
      var rest := ElementInits(from + 1, count);
      ElementInitsShape(from + 1, count);
      assert ElementInits(from, count) == head + rest;
      forall k | 0 <= k < count - from
        ensures ElementInits(from, count)[2 * k] == Child(from + k, Outer)
        ensures ElementInits(from, count)[2 * k + 1] == MidHook(ElementInitDone(from + k))
      {
        if k > 0 {
          assert (head + rest)[2 * k] == rest[2 * (k - 1)];
          assert (head + rest)[2 * k + 1] == rest[2 * (k - 1) + 1];
        }
      }
    }
  }

  /** ARRAY_LITERAL: child 0, the array-object-done hook, then each element
      i >= 1 followed by exactly one element-initialised hook for i. */
  lemma ArrayLiteralOrder(n: Node)
    requires n.kind == ArrayLiteral && |n.children| >= 1
    ensures |Plan(n)| == 2 * |n.children| + 2
    ensures Plan(n)[..3] == [VisitHook, Child(0, Outer), MidHook(ArrayObjectDone)] && Plan(n)[|Plan(n)| - 1] == Leave
    ensures forall i | 1 <= i < |n.children| ::
      Plan(n)[2 * i + 1] == Child(i, Outer) && Plan(n)[2 * i + 2] == MidHook(ElementInitDone(i))
  {
    var c := |n.children|;
    ElementInitsShape(1, c);
    var f := ElementInits(1, c);
    assert Plan(n) == [VisitHook, Child(0, Outer), MidHook(ArrayObjectDone)] + f + [Leave];
    forall i | 1 <= i < c
      ensures Plan(n)[2 * i + 1] == Child(i, Outer) && Plan(n)[2 * i + 2] == MidHook(ElementInitDone(i))
    {
      assert Plan(n)[2 * i + 1] == f[2 * (i - 1)];
      assert Plan(n)[2 * i + 2] == f[2 * (i - 1) + 1];
    }
  }

  /** IFGOTO with neither 1 nor 3 children and LABEL_STMT with more than 2
      children halt with a malformed-node failure; with the counts the walker
      expects they never halt. */
  lemma MalformedHalts(n: Node)
    requires n.kind == IfGoto || n.kind == LabelStmt
    ensures n.kind == IfGoto ==>
      ((exists i | 0 <= i < |Plan(n)| :: Plan(n)[i] == Halt(MalformedIfGoto(|n.children|)))
       <==> |n.children| != 1 && |n.children| != 3)
    ensures n.kind == LabelStmt ==>
      ((exists i | 0 <= i < |Plan(n)| :: Plan(n)[i] == Halt(MalformedLabel(|n.children|)))
       <==> |n.children| > 2)
  {
    var p := Plan(n);
    var c := |n.children|;
    if n.kind == IfGoto && c != 1 && c != 3 {
      assert p[1] == Halt(MalformedIfGoto(c));
    }
    if n.kind == LabelStmt && c > 2 {
      assert p[2] == Halt(MalformedLabel(c));
    }
  }
}
