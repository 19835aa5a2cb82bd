/**
 * The unit tests of the type model, each stated as a lemma about the model,
 * next to the general law it is an instance of.
 */
module TypeTest {
  import opened Wrappers
  import opened Types
  import opened Descriptors
  import opened NativeTypes

  /** The expected base type of each primitive class. */
  const BaseMappings: map<PrimitiveClass, BaseKind> := map[
    BooleanClass := Boolean,
    CharacterClass := Char,
    ByteClass := Byte,
    ShortClass := Short,
    IntegerClass := Int,
    LongClass := Long,
    FloatClass := Float,
    DoubleClass := Double
  ]

  /** `[[I` is one array of two dimensions over `int`, not an array of arrays, and renders back. */
  lemma ArrayType()
    ensures ParseType("[[I") == Ok(Array(2, Base(Int)))
    ensures Render(Array(2, Base(Int))) == "[[I"
  {
    assert "[[I" == Brackets(2) + "I";
    ParseArrayDescriptor(2, "I");
  }

  /** `Lme/jamiemansfield/Test;` parses to an object type that renders as exactly that descriptor. */
  lemma ObjectType(name: string)
    requires name == "me/jamiemansfield/Test"
    ensures ParseType("L" + name + ";") == Ok(Object(name))
    ensures Render(ParseType("L" + name + ";").value) == "L" + name + ";"
  {
    ParseObjectDescriptor(name);
  }

  /** `Z` parses to the boolean base type and renders back. */
  lemma BaseType()
    ensures ParseType("Z") == Ok(Base(Boolean))
    ensures Render(Base(Boolean)) == "Z"
  {
    ParseRender(Base(Boolean));
  }

  /** `V` parses to void through the general entry point and renders back. */
  lemma VoidType()
    ensures ParseType("V") == Ok(Void)
    ensures Render(Void) == "V"
  {
  }

  /** An unknown leading character fails `Type.of`; `V` fails `FieldType.of`. */
  lemma InvalidType()
    ensures ParseType("A") == Err(InvalidDescriptor("A"))
    ensures ParseField("V") == Err(InvalidDescriptor("V"))
  {
    assert KindOf('A') == None;
    ParseFieldRejectsOnlyVoid("V");
  }

  /** `String.class` maps to `Ljava/lang/String;`, each primitive class to its base type, `Void.TYPE` to void. */
  lemma OfClass()
    ensures TypeOf(Field(Named("java.lang.String"))).Object?
    ensures Render(TypeOf(Field(Named("java.lang.String")))) == "Ljava/lang/String;"
    ensures forall p :: p in BaseMappings ==> TypeOf(Field(Primitive(p))) == Base(BaseMappings[p])
    ensures forall p: PrimitiveClass :: p in BaseMappings
    ensures TypeOf(VoidClass) == Void
  {
    var name := "java.lang.String";
    NormaliseClass();
    NamedClassMapping(name);
    forall p: PrimitiveClass ensures p in BaseMappings {
      match p
      case BooleanClass =>
      case CharacterClass =>
      case ByteClass =>
      case ShortClass =>
      case IntegerClass =>
      case LongClass =>
      case FloatClass =>
      case DoubleClass =>
    }
    assert "L" + "java/lang/String" + ";" == "Ljava/lang/String;";
  }

  /** The object-type constructor stores `java.lang.String` as `java/lang/String`. */
  lemma NormaliseClass()
    ensures MkObject("java.lang.String").className == "java/lang/String"
  {
  }
}
