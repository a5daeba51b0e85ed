/**
 * `ReflectedFieldPointerKey`: a pointer key for a field of an object that
 * is named at run time, by a string literal, by another abstract object, or
 * (for array contents) by one shared sentinel object. `InstanceKey` and the
 * superclass `AbstractFieldPointerKey` are not part of this model; an
 * instance key is an identity with a hash and a text.
 */
module ReflectedFieldKeys {
  import opened JavaText

  /** An abstract object. Equality is identity, given by `id`. */
  datatype InstanceKey = InstanceKey(id: nat, hash: Int32, text: string)

  /** What `getFieldIdentifier()` returns. */
  datatype FieldIdentifier =
    | Literal(name: string)        // literal(name, _)
    | Mapped(from: InstanceKey)    // mapped(from, _)
    | ArrayState                   // index(_): the one arrayStateKey object

  datatype Key = Key(field: FieldIdentifier, instance: InstanceKey)

  /** An argument of `equals`: a key, or any other object. */
  datatype Object = KeyObject(key: Key) | OtherObject(id: nat)

  function LiteralKey(lit: string, instance: InstanceKey): (k: Key)
    ensures k.field == Literal(lit) && k.instance == instance
  {
    Key(Literal(lit), instance)
  }

  function MappedKey(mapFrom: InstanceKey, instance: InstanceKey): (k: Key)
    ensures k.field == Mapped(mapFrom) && k.instance == instance
  {
    Key(Mapped(mapFrom), instance)
  }

  function IndexKey(instance: InstanceKey): (k: Key)
    ensures k.field == ArrayState && k.instance == instance
  {
    Key(ArrayState, instance)
  }

  /** `getFieldIdentifier().equals(other)`: `String.equals` for a literal,
      the instance key's own `equals` for a mapped key, and `Object.equals`
      (identity) for the sentinel. */
  predicate IdentifierEquals(a: FieldIdentifier, b: FieldIdentifier)
  {
    match a
    case Literal(s) => b.Literal? && b.name == s
    case Mapped(m) => b.Mapped? && b.from == m
    case ArrayState => b.ArrayState?
  }

  /** `equals(obj)`: only another key with an equal identifier and the same
      instance key. */
  predicate Equals(k: Key, obj: Object)
  {
    obj.KeyObject? && IdentifierEquals(k.field, obj.key.field) && k.instance == obj.key.instance
  }

  /** `equals` holds exactly between keys made from the same identifier and
      the same instance; so it is reflexive and symmetric. */
  lemma EqualsMeans(k: Key, obj: Object)
    ensures Equals(k, obj) <==> obj == KeyObject(k)
  {
    if obj.KeyObject? && IdentifierEquals(k.field, obj.key.field) {
      assert k.field == obj.key.field;
    }
  }

  /** `getFieldIdentifier().hashCode()`. The sentinel's identity hash is
      not known here and is passed in. */
  function IdentifierHash(id: FieldIdentifier, arrayStateHash: Int32): Int32
  {
    match id
    case Literal(s) => StringHash(s)
    case Mapped(m) => m.hash
    case ArrayState => arrayStateHash
  }

  /** `hashCode()`: the identifier's hash; the instance plays no part. */
  function HashCode(k: Key, arrayStateHash: Int32): Int32
  {
    IdentifierHash(k.field, arrayStateHash)
  }

  /** Equal keys have equal hashes. */
  lemma EqualKeysHashEqually(k: Key, j: Key, arrayStateHash: Int32)
    requires Equals(k, KeyObject(j))
    ensures HashCode(k, arrayStateHash) == HashCode(j, arrayStateHash)
  {
    EqualsMeans(k, KeyObject(j));
  }

  /** `toString()`: "field:" and the identifier's text. */
  function ToString(k: Key): (s: string)
    ensures |s| >= 6 && s[..6] == "field:"
    ensures k.field.Literal? ==> s[6..] == k.field.name
    ensures k.field.Mapped? ==> s[6..] == k.field.from.text
    ensures k.field.ArrayState? ==> s[6..] == "ArrayStateKey"
  {
    "field:" + match k.field
      case Literal(name) => name
      case Mapped(m) => m.text
      case ArrayState => "ArrayStateKey"
  }

  /** Every `index` key has the sentinel as identifier, so two of them are
      equal exactly when their instances are. */
  lemma IndexKeysShareSentinel(i: InstanceKey, j: InstanceKey)
    ensures IndexKey(i).field == IndexKey(j).field
    ensures Equals(IndexKey(i), KeyObject(IndexKey(j))) <==> i == j
  {
  }

  /** An `index` key is never equal to a `literal` or a `mapped` key, in
      either direction, even where their texts agree. */
  lemma IndexNeverNamed(i: InstanceKey, j: InstanceKey, s: string, m: InstanceKey)
    ensures !Equals(IndexKey(i), KeyObject(LiteralKey(s, j)))
    ensures !Equals(LiteralKey(s, j), KeyObject(IndexKey(i)))
    ensures !Equals(IndexKey(i), KeyObject(MappedKey(m, j)))
    ensures !Equals(MappedKey(m, j), KeyObject(IndexKey(i)))
    ensures ToString(IndexKey(i)) == ToString(LiteralKey("ArrayStateKey", j))
  {
  }

  /** A key is never equal to an object that is not a key. */
  lemma OtherObjectsDiffer(k: Key, id: nat)
    ensures !Equals(k, OtherObject(id))
  {
  }
}
