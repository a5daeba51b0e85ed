/**
 * `AstLexicalWrite`: an SSA instruction that stores values into lexically
 * scoped variables, one access per variable. The superclass
 * `AstLexicalAccess` and its `Access` record are not part of this model
 * beyond the array of accesses they hold.
 */
module LexicalWrites {
  import opened Wrappers
  import opened JavaText

  /** One lexical access: the variable's name, the name of the entity that
      defines it, and the SSA value number written to it. */
  datatype Access = Access(variableName: string, variableDefiner: string, valueNumber: int)

  datatype LexicalWrite = LexicalWrite(accesses: seq<Access>)

  datatype Thrown = IndexOutOfBounds(index: int) | UnsupportedOperation

  /** `new AstLexicalWrite(definer, globalName, rhs)`: note the order of the
      first two arguments is swapped in the access. */
  function Write(definer: string, globalName: string, rhs: int): (w: LexicalWrite)
    ensures |w.accesses| == 1
    ensures w.accesses[0].variableName == globalName
    ensures w.accesses[0].variableDefiner == definer
    ensures w.accesses[0].valueNumber == rhs
  {
    WriteAccess(Access(globalName, definer, rhs))
  }

  /** `new AstLexicalWrite(access)`. */
  function WriteAccess(access: Access): (w: LexicalWrite)
    ensures w.accesses == [access]
  {
    LexicalWrite([access])
  }

  /** `getNumberOfUses()`: one use per access. */
  function GetNumberOfUses(w: LexicalWrite): nat
  {
    |w.accesses|
  }

  /** `getUse(i)`: the value number of access `i`; the accesses array throws
      for any other index. */
  function GetUse(w: LexicalWrite, i: int): (r: Result<int, Thrown>)
    ensures r.Ok? <==> 0 <= i < GetNumberOfUses(w)
    ensures r.Ok? ==> r.value == w.accesses[i].valueNumber
    ensures r.Err? ==> r.error == IndexOutOfBounds(i)
  {
    if 0 <= i < |w.accesses| then Ok(w.accesses[i].valueNumber) else Err(IndexOutOfBounds(i))
  }

  /** `getNumberOfDefs()`: a lexical write defines no SSA value. */
  function GetNumberOfDefs(w: LexicalWrite): nat
  {
    0
  }

  /** `getDef(i)` throws `UnsupportedOperationException` for every `i`. */
  function GetDef(w: LexicalWrite, i: int): (r: Result<int, Thrown>)
    ensures r == Err(UnsupportedOperation)
  {
    Err(UnsupportedOperation)
  }

  /** No index is a valid def: the defs are empty in both senses. */
  lemma NoDefs(w: LexicalWrite, i: int)
    ensures GetNumberOfDefs(w) == 0 && GetDef(w, i).Err?
  {
  }

  /** `copyForSSA(defs, uses)`. With `uses` null the copy has the same
      accesses. Otherwise access `i` keeps its name and definer and takes
      `uses[i]` as its value number; a `uses` shorter than the accesses
      throws at its length. `defs` plays no part. Copying with the
      instruction's own uses gives the instruction back. */
  method CopyForSSA(w: LexicalWrite, defs: array?<int>, uses: array?<int>) returns (r: Result<LexicalWrite, Thrown>)
    ensures uses == null ==> r == Ok(w)
    ensures uses != null ==> (r.Ok? <==> uses.Length >= |w.accesses|)
    ensures uses != null && r.Err? ==> r.error == IndexOutOfBounds(uses.Length)
    ensures r.Ok? ==> |r.value.accesses| == |w.accesses|
    ensures r.Ok? ==> forall i | 0 <= i < |w.accesses| ::
      r.value.accesses[i].variableName == w.accesses[i].variableName
      && r.value.accesses[i].variableDefiner == w.accesses[i].variableDefiner
    ensures uses != null && r.Ok? ==> forall i | 0 <= i < |w.accesses| :: GetUse(r.value, i) == Ok(uses[i])
    ensures (uses != null && uses.Length >= |w.accesses|
             && forall i | 0 <= i < |w.accesses| :: GetUse(w, i) == Ok(uses[i]))
      ==> r == Ok(w)
  {
    if uses == null {
      return Ok(LexicalWrite(w.accesses));
    }
    var count := |w.accesses|;
    var accesses := new Access[count](i => Access("", "", 0));
    var i := 0;
    while i < count
      invariant 0 <= i <= count
      invariant i <= uses.Length
      invariant forall j | 0 <= j < i ::
        accesses[j] == Access(w.accesses[j].variableName, w.accesses[j].variableDefiner, uses[j])
    {
      if i >= uses.Length {
        return Err(IndexOutOfBounds(uses.Length));
      }
      var previous := w.accesses[i];
      accesses[i] := Access(previous.variableName, previous.variableDefiner, uses[i]);
      i := i + 1;
    }
    assert (forall j | 0 <= j < count :: GetUse(w, j) == Ok(uses[j])) ==> accesses[..] == w.accesses;
    r := Ok(LexicalWrite(accesses[..]));
  }

  /** The text of one access, `lexical:name@definer = value`, where
      `valueText` is what `getValueString` makes of a value number. */
  function AccessText(a: Access, valueText: int -> string): string
  {
    "lexical:" + a.variableName + "@" + a.variableDefiner + " = " + valueText(a.valueNumber)
  }

  function AccessTexts(accesses: seq<Access>, valueText: int -> string): (r: seq<string>)
    ensures |r| == |accesses|
    ensures forall i | 0 <= i < |accesses| :: r[i] == AccessText(accesses[i], valueText)
  {
    if accesses == [] then [] else AccessTexts(accesses[..|accesses| - 1], valueText) + [AccessText(accesses[|accesses| - 1], valueText)]
  }

  /** `toString(symbolTable, d)`: the text of every access, in order,
      separated by ", ". */
  method ToString(w: LexicalWrite, valueText: int -> string) returns (s: string)
    ensures s == Join(AccessTexts(w.accesses, valueText), ", ")
  {
    s := "";
    var i := 0;
    while i < |w.accesses|
      invariant 0 <= i <= |w.accesses|
      invariant s == Join(AccessTexts(w.accesses[..i], valueText), ", ")
    {
      var a := w.accesses[i];
      var piece := "lexical:" + a.variableName + "@" + a.variableDefiner + " = " + valueText(a.valueNumber);
      ghost var prefix := AccessTexts(w.accesses[..i], valueText);
      assert w.accesses[..i + 1][..i] == w.accesses[..i];
      assert AccessTexts(w.accesses[..i + 1], valueText) == prefix + [piece];
      if i == 0 {
        s := piece;
      } else {
        JoinSnoc(prefix, piece, ", ");
        s := s + ", " + piece;
      }
      i := i + 1;
    }
    assert w.accesses[..i] == w.accesses;
  }
}
