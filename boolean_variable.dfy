/**
 * `BooleanVariable`: a mutable boolean cell of a dataflow system, with a
 * hash fixed when it is made.
 */
module BooleanVariables {
  import opened Wrappers
  import opened JavaText

  datatype Thrown = NullPointer | AssertionFailure

  /** `hash + "[TRUE]"` or `hash + "[FALSE]"`. */
  function Text(hash: int, value: bool): string
  {
    DecimalText(hash) + (if value then "[TRUE]" else "[FALSE]")
  }

  class BooleanVariable {
    var b: bool
    const hash: Int32

    /** `new BooleanVariable(hash)`: the value starts false. */
    constructor (hash: Int32)
      ensures b == false && this.hash == hash
    {
      this.hash := hash;
      b := false;
    }

    /** `new BooleanVariable(b, hash)`. */
    constructor WithValue(b: bool, hash: Int32)
      ensures this.b == b && this.hash == hash
    {
      this.hash := hash;
      this.b := b;
    }

    /** `copyState(v)`: take over `v`'s value; a null `v` throws. */
    method CopyState(v: BooleanVariable?) returns (thrown: Option<Thrown>)
      modifies this
      ensures v == null ==> thrown == Some(NullPointer) && b == old(b)
      ensures v != null ==> thrown == None && b == old(v.b) && v.b == old(v.b)
    {
      if v == null {
        return Some(NullPointer);
      }
      b := v.b;
      return None;
    }

    /** `or(other)`: the value becomes the disjunction with `other`'s, so it
      never goes from true to false. A null `other` is an assertion failure
      when assertions are checked, and a null dereference otherwise. */
    method Or(other: BooleanVariable?, verifyAssertions: bool) returns (thrown: Option<Thrown>)
      modifies this
      ensures other == null ==>
        b == old(b) && thrown == Some(if verifyAssertions then AssertionFailure else NullPointer)
      ensures other != null ==> thrown == None && b == (old(b) || old(other.b))
      ensures old(b) ==> b
    {
      if other == null {
        if verifyAssertions {
          return Some(AssertionFailure);
        }
        return Some(NullPointer);
      }
      b := b || other.b;
      return None;
    }

    /** `set(b)`. */
    method Set(value: bool)
      modifies this
      ensures b == value && GetValue() == value
    {
      b := value;
    }

    function GetValue(): bool
      reads this
    {
      b
    }

    /** `sameValue(other)`: compares the values only; a null `other` throws. */
    function SameValue(other: BooleanVariable?): (r: Result<bool, Thrown>)
      reads this, other
      ensures other == null <==> r == Err(NullPointer)
      ensures other != null ==> (r == Ok(true) <==> GetValue() == other.GetValue())
    {
      if other == null then Err(NullPointer) else Ok(b == other.b)
    }

    /** `hashCode()`: the hash given at construction, which nothing changes. */
    function HashCode(): Int32
    {
      hash
    }

    /** `equals(obj)`: reference identity, not the value. */
    predicate Equals(obj: object?)
    {
      obj == this
    }

    function ToString(): string
      reads this
    {
      Text(hash, b)
    }
  }

  /** `hashCode()` agrees with `equals`: equal cells are one cell, and its
      hash is the one it was made with. `HashCode` reads no mutable state,
      so `set`, `or` and `copyState` cannot change it. */
  lemma EqualCellsHashEqually(x: BooleanVariable, y: BooleanVariable)
    requires x.Equals(y)
    ensures x.HashCode() == y.HashCode() == y.hash
  {
  }

  /** Two different cells with the same value are `sameValue` but not
      `equals`. */
  lemma IdentityNotValue(x: BooleanVariable, y: BooleanVariable)
    requires x != y && x.b == y.b
    ensures x.SameValue(y) == Ok(true) && !x.Equals(y)
  {
  }

  lemma CharFromEnd(s: string, t: string, u: string, k: nat)
    requires s == t + u && 1 <= k <= |u|
    ensures s[|s| - k] == u[|u| - k]
  {
  }

  lemma PrefixOf(s: string, t: string, u: string)
    requires s == t + u
    ensures s[..|s| - |u|] == t
  {
  }

  /** The text tells both the hash and the value apart: `toString` of two
      cells is the same only when their hashes and values are. */
  lemma TextInjective(h1: int, v1: bool, h2: int, v2: bool)
    requires Text(h1, v1) == Text(h2, v2)
    ensures h1 == h2 && v1 == v2
  {
    var s := Text(h1, v1);
    var suffix1 := if v1 then "[TRUE]" else "[FALSE]";
    var suffix2 := if v2 then "[TRUE]" else "[FALSE]";
    if v1 != v2 {
      CharFromEnd(s, DecimalText(h1), suffix1, 6);
      CharFromEnd(s, DecimalText(h2), suffix2, 6);
      assert false;
    }
    PrefixOf(s, DecimalText(h1), suffix1);
    PrefixOf(s, DecimalText(h2), suffix2);
    DecimalInjective(h1, h2);
  }
}
