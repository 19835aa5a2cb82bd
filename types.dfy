/**
 * The descriptor type model: void, the eight primitive (base) types, class
 * references (object types) and arrays, as encoded by the field descriptors of
 * section 4.3.2 of the Java Virtual Machine Specification plus the void
 * descriptor `V` of section 4.3.3.
 */
module Types {
  import opened Wrappers

  /** The eight base types of Table 4.3-A of the Java Virtual Machine Specification. */
  datatype BaseKind = Boolean | Char | Byte | Short | Int | Long | Float | Double

  /**
   * A type. `Array(dims, component)` stands for `dims` nested array levels over a
   * component that is itself never an array: `[[I` is one `Array(2, Base(Int))`.
   */
  datatype Type =
    | Void
    | Base(kind: BaseKind)
    | Object(className: string)
    | Array(dims: nat, component: Type)

  /** The descriptor character of each base type. */
  function Code(k: BaseKind): char
  {
    match k
    case Boolean => 'Z'
    case Char => 'C'
    case Byte => 'B'
    case Short => 'S'
    case Int => 'I'
    case Long => 'J'
    case Float => 'F'
    case Double => 'D'
  }

  /** The eight base-type descriptor characters. */
  const BaseCodes: string := "ZCBSIJFD"

  /** The base type a descriptor character stands for, if any. */
  function KindOf(c: char): (r: Option<BaseKind>)
    ensures r.Some? <==> c in BaseCodes
    ensures r.Some? ==> Code(r.value) == c
  {
    match c
    case 'Z' => Some(Boolean)
    case 'C' => Some(Char)
    case 'B' => Some(Byte)
    case 'S' => Some(Short)
    case 'I' => Some(Int)
    case 'J' => Some(Long)
    case 'F' => Some(Float)
    case 'D' => Some(Double)
    case _ => None
  }

  /** Every base type is named by exactly one code, and the code names it back. */
  lemma CodeNamesKind(k: BaseKind, c: char)
    ensures Code(k) == c <==> KindOf(c) == Some(k)
    ensures Code(k) in BaseCodes
  {
  }

  /** A class name in internal form: `/`-separated, and free of the `;` that ends an object descriptor. */
  predicate IsInternalName(name: string)
  {
    '.' !in name && ';' !in name
  }

  /** A character of a class name in internal form: the `.` separator becomes `/`. */
  function InternalChar(c: char): char
  {
    if c == '.' then '/' else c
  }

  /** The class name with every `.` separator replaced by the internal separator `/`. */
  function Normalise(name: string): (r: string)
    ensures |r| == |name|
    ensures forall i :: 0 <= i < |name| ==> r[i] == InternalChar(name[i])
    ensures '.' !in r
  {
    seq(|name|, i requires 0 <= i < |name| => InternalChar(name[i]))
  }

  /** Normalisation leaves a string without `.` as it is. */
  lemma NormaliseWithoutDots(name: string)
    requires '.' !in name
    ensures Normalise(name) == name
  {
    assert forall i :: 0 <= i < |name| ==> Normalise(name)[i] == name[i];
  }

  /** Normalising twice is normalising once. */
  lemma NormaliseIdempotent(name: string)
    ensures Normalise(Normalise(name)) == Normalise(name)
  {
    NormaliseWithoutDots(Normalise(name));
  }

  /** Normalisation works character by character, so it distributes over concatenation. */
  lemma NormaliseAppend(a: string, b: string)
    ensures Normalise(a + b) == Normalise(a) + Normalise(b)
  {
    var l, r := Normalise(a + b), Normalise(a) + Normalise(b);
    forall i | 0 <= i < |a + b| ensures l[i] == r[i] {
      if i < |a| {
        assert (a + b)[i] == a[i];
      } else {
        assert (a + b)[i] == b[i - |a|];
      }
    }
  }

  /** Normalisation only ever introduces `/`: a character other than `.` and `/` is in the result iff it is in the input. */
  lemma NormaliseKeeps(name: string, c: char)
    requires c != '.' && c != '/'
    ensures c in Normalise(name) <==> c in name
  {
    if c in name {
      var i :| 0 <= i < |name| && name[i] == c;
      assert Normalise(name)[i] == c;
    }
    if c in Normalise(name) {
      var i :| 0 <= i < |Normalise(name)| && Normalise(name)[i] == c;
      assert name[i] == c;
    }
  }

  /**
   * The object-type constructor: it stores the class name in internal form, so a
   * dotted name such as `java.lang.String` becomes `java/lang/String`.
   */
  function MkObject(name: string): (t: Type)
    ensures t.Object? && |t.className| == |name| && '.' !in t.className
    ensures ';' in t.className <==> ';' in name
    ensures '.' !in name ==> t.className == name
  {
    NormaliseKeeps(name, ';');
    assert '.' !in name ==> Normalise(name) == name by {
      if '.' !in name { NormaliseWithoutDots(name); }
    }
    Object(Normalise(name))
  }

  /** A type usable as a field or array component: never void, arrays fold their dimensions. */
  predicate IsFieldType(t: Type)
  {
    match t
    case Void => false
    case Base(_) => true
    case Object(name) => IsInternalName(name)
    case Array(dims, c) => dims >= 1 && IsElementType(c)
  }

  /** The component of an array: a base type or an object type, never void nor another array. */
  predicate IsElementType(t: Type)
  {
    t.Base? || (t.Object? && IsInternalName(t.className))
  }

  /** The representation invariant of every type value. */
  predicate WellFormed(t: Type)
  {
    t.Void? || IsFieldType(t)
  }

  /** `n` copies of `[`. */
  function Brackets(n: nat): (r: string)
    ensures |r| == n
    ensures forall i :: 0 <= i < n ==> r[i] == '['
  {
    if n == 0 then "" else "[" + Brackets(n - 1)
  }

  /** The canonical descriptor string of a type (`toString()`). */
  function Render(t: Type): (r: string)
    ensures |r| >= 1
    ensures t.Array? && t.dims >= 1 ==> r[0] == '['
    ensures !t.Array? ==> r[0] != '['
  {
    match t
    case Void => "V"
    case Base(k) => [Code(k)]
    case Object(name) => "L" + name + ";"
    case Array(dims, c) => Brackets(dims) + Render(c)
  }
}
