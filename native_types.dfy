/**
 * `Type.of(Class)`: mapping the reflection handles of the host language to
 * type values. A handle is modelled abstractly: a primitive class, the void
 * class, a class known by its dotted binary name, or an array class.
 */
module NativeTypes {
  import opened Wrappers
  import opened Types
  import opened Descriptors

  /** The handles of the eight primitive classes: `Boolean.TYPE`, `Character.TYPE`, ..., `Double.TYPE`. */
  datatype PrimitiveClass =
    | BooleanClass | CharacterClass | ByteClass | ShortClass
    | IntegerClass | LongClass | FloatClass | DoubleClass

  /**
   * The handle of a class that can be the type of a field. There is no array of
   * void in the host language, so the void handle is kept out of this type.
   */
  datatype FieldClass =
    | Primitive(primitive: PrimitiveClass)
    | Named(name: string)
    | ArrayOf(component: FieldClass)

  /** Any class handle: `Void.TYPE` or a field class. */
  datatype NativeClass = VoidClass | Field(handle: FieldClass)

  /** The base type of each primitive class. */
  function BaseOf(p: PrimitiveClass): BaseKind
  {
    match p
    case BooleanClass => Boolean
    case CharacterClass => Char
    case ByteClass => Byte
    case ShortClass => Short
    case IntegerClass => Int
    case LongClass => Long
    case FloatClass => Float
    case DoubleClass => Double
  }

  /** The primitive class of each base type, so that every base type is reached. */
  function PrimitiveFor(k: BaseKind): (p: PrimitiveClass)
    ensures BaseOf(p) == k
    ensures forall q :: BaseOf(q) == k ==> q == p
  {
    match k
    case Boolean => BooleanClass
    case Char => CharacterClass
    case Byte => ByteClass
    case Short => ShortClass
    case Int => IntegerClass
    case Long => LongClass
    case Float => FloatClass
    case Double => DoubleClass
  }

  /** The number of array levels of a handle. */
  function Depth(h: FieldClass): nat
  {
    match h
    case ArrayOf(c) => 1 + Depth(c)
    case _ => 0
  }

  /** The innermost, non-array component of a handle. */
  function Element(h: FieldClass): (e: FieldClass)
    ensures !e.ArrayOf?
  {
    match h
    case ArrayOf(c) => Element(c)
    case _ => h
  }

  /** The names of all classes in a handle are binary names, which never hold `;`. */
  predicate HasBinaryNames(h: FieldClass)
  {
    match h
    case Primitive(_) => true
    case Named(name) => ';' !in name
    case ArrayOf(c) => HasBinaryNames(c)
  }

  /**
   * The type of a field class. Each array level adds one to the dimension count
   * of the component's type, so the result is never an array of arrays.
   */
  function FieldTypeOf(h: FieldClass): (t: Type)
    ensures t.Array? <==> h.ArrayOf?
    ensures t.Array? ==> t.dims == Depth(h) && t.dims >= 1 && !t.component.Array? && !t.component.Void?
    ensures !t.Array? ==> t.Base? || t.Object?
  {
    match h
    case Primitive(p) => Base(BaseOf(p))
    case Named(name) => MkObject(name)
    case ArrayOf(c) =>
      var inner := FieldTypeOf(c);
      if inner.Array? then Array(inner.dims + 1, inner.component) else Array(1, inner)
  }

  /** `Type.of(Class)`: the void class maps to void, every other class to its field type. */
  function TypeOf(h: NativeClass): (t: Type)
    ensures t == Void <==> h.VoidClass?
  {
    match h
    case VoidClass => Void
    case Field(f) => FieldTypeOf(f)
  }

  /** The descriptor of a class as the host platform spells it, with dotted class names. */
  function DescriptorOf(h: FieldClass): string
  {
    match h
    case Primitive(p) => [Code(BaseOf(p))]
    case Named(name) => "L" + name + ";"
    case ArrayOf(c) => "[" + DescriptorOf(c)
  }

  /** Every primitive class maps to its base type, and distinct primitive classes to distinct base types. */
  lemma PrimitiveClassMapping(p: PrimitiveClass, q: PrimitiveClass)
    ensures TypeOf(Field(Primitive(p))) == Base(BaseOf(p))
    ensures TypeOf(Field(Primitive(p))) == TypeOf(Field(Primitive(q))) <==> p == q
  {
    assert PrimitiveFor(BaseOf(p)) == p;
  }

  /** An array class is one array type over the type of its innermost component. */
  lemma {:induction false} ArrayClassFolds(h: FieldClass)
    requires h.ArrayOf?
    ensures FieldTypeOf(h) == Array(Depth(h), FieldTypeOf(Element(h)))
  {
    if h.component.ArrayOf? {
      ArrayClassFolds(h.component);
    }
  }

  /** The type of a class with binary names satisfies the representation invariant. */
  lemma {:induction false} TypeOfWellFormed(h: NativeClass)
    requires h.Field? ==> HasBinaryNames(h.handle)
    ensures WellFormed(TypeOf(h))
  {
    if h.Field? {
      var f := h.handle;
      if f.ArrayOf? {
        ArrayClassFolds(f);
        ElementHasBinaryNames(f);
      }
    }
  }

  /** The innermost component of a handle with binary names has a binary name. */
  lemma {:induction false} ElementHasBinaryNames(h: FieldClass)
    requires HasBinaryNames(h)
    ensures HasBinaryNames(Element(h))
  {
    if h.ArrayOf? {
      ElementHasBinaryNames(h.component);
    }
  }

  /** The descriptor of an array class is its brackets followed by the descriptor of its innermost component. */
  lemma {:induction false} DescriptorOfArray(h: FieldClass)
    ensures DescriptorOf(h) == Brackets(Depth(h)) + DescriptorOf(Element(h))
  {
    if h.ArrayOf? {
      DescriptorOfArray(h.component);
    }
  }

  /** The innermost component of a handle parses back from its descriptor. */
  lemma ElementAgreesWithParse(e: FieldClass)
    requires !e.ArrayOf? && HasBinaryNames(e)
    ensures ParseElement(DescriptorOf(e)) == Ok(FieldTypeOf(e))
    ensures DescriptorOf(e) != "V"
  {
    if e.Named? {
      ParseObjectDescriptor(e.name);
    } else {
      CodeNamesKind(BaseOf(e.primitive), Code(BaseOf(e.primitive)));
      CodeNamesKind(BaseOf(e.primitive), 'V');
    }
  }

  /** `FieldType.of(c)` agrees with `FieldType.of` applied to the descriptor of `c`. */
  lemma FieldTypeOfAgreesWithParse(f: FieldClass)
    requires HasBinaryNames(f)
    ensures ParseField(DescriptorOf(f)) == Ok(FieldTypeOf(f))
    ensures DescriptorOf(f) != "V"
  {
    var e := Element(f);
    ElementHasBinaryNames(f);
    ElementAgreesWithParse(e);
    if f.ArrayOf? {
      DescriptorOfArray(f);
      ArrayClassFolds(f);
      ParseArrayDescriptor(Depth(f), DescriptorOf(e));
    } else {
      assert LeadingBrackets(DescriptorOf(f)) == 0;
    }
  }

  /** Mapping a handle agrees with parsing its descriptor: `Type.of(c) == Type.of(descriptor of c)`. */
  lemma TypeOfAgreesWithParse(h: NativeClass)
    requires h.Field? ==> HasBinaryNames(h.handle)
    ensures ParseType(if h.VoidClass? then "V" else DescriptorOf(h.handle)) == Ok(TypeOf(h))
  {
    if h.Field? {
      FieldTypeOfAgreesWithParse(h.handle);
    }
  }

  /** A named class maps to the object type of its normalised name, rendered `L` name `;`. */
  lemma NamedClassMapping(name: string)
    ensures TypeOf(Field(Named(name))) == Object(Normalise(name))
    ensures Render(TypeOf(Field(Named(name)))) == "L" + Normalise(name) + ";"
  {
  }
}
