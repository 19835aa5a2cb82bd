# Bombe descriptor type model in Dafny

This project models the type model of Bombe, the library of JVM type descriptors used by remapping and deobfuscation tools. Bombe encodes the field descriptors of section 4.3.2 of the Java Virtual Machine Specification, plus the void descriptor `V` of section 4.3.3. The model covers five parts:

- **Model** (`types.dfy`, module `Types`). A closed sum type `Type` with the variants `Void`, `Base`, `Object` and `Array`.
  - `Base` carries one of the eight kinds of Table 4.3-A, with the codes `Z C B S I J F D`.
  - `Object` carries a class name in internal, `/`-separated form.
  - `Array` carries a dimension count and one component. In a well-formed value the count is at least one and the component is a base or object type, so `[[I` is a single `Array(2, Base(Int))`.
  - The predicate `WellFormed` is the representation invariant. `IsFieldType` is the field-type subset, which excludes void.
- **Parsers** (`descriptors.dfy`, module `Descriptors`).
  - `ParseType` is `Type.of(String)` and accepts all four productions.
  - `ParseField` is `FieldType.of(String)`. It folds the leading `[` characters into one dimension count and rejects `V`.
  - Both return `Err(InvalidDescriptor(s))` on input they do not accept; the Java code throws an exception instead.
  - The grammar is also written out on its own, as the predicates `IsFieldDescriptor` and `IsTypeDescriptor`. The parsers are proved to accept exactly the strings of that grammar.
- **Renderer**. `Render` is `toString()`, which gives the canonical descriptor string.
  - Parsing and rendering are proved inverse in both directions.
  - Rendering is injective on well-formed values, so two types are equal exactly when their descriptors are equal.
- **Normalisation**. `MkObject` is the `ObjectType` constructor. It stores the class name with every `.` replaced by `/` (`Normalise`).
- **Native mapping** (`native_types.dfy`, module `NativeTypes`). `TypeOf` is `Type.of(Class)`. Reflection handles appear as an abstract datatype with four kinds of handle:
  - the void class;
  - the eight primitive classes;
  - a class named by its dotted binary name;
  - an array class over a field class.

  Arrays of void cannot be written, just as the host language has none. The mapping is proved to agree with parsing the handle's own descriptor.

The unit tests of `TypeTest.java` appear as lemmas in `type_test.dfy` (module `TypeTest`), each next to the general law it is an instance of. `wrappers.dfy` holds the `Option` and `Result` datatypes.

The implementation classes (`Type`, `FieldType`, `BaseType`, `ObjectType`, `ArrayType`, `VoidType`) are not part of this model. Their behaviour is taken from the unit tests and from section 4.3 of the Java Virtual Machine Specification. Points where this model picks one reading:

- **Array components.** The grammar `array ::= "[" type` would also admit `[V`. The model follows the JVM specification instead: an array component is a field type, so `[V` is rejected.
- **Dots in parsed class names.** The parser builds object types through the normalising constructor, so `La.b;` parses to `Object("a/b")`. The round trip `Render(ParseType(s)) == s` is therefore proved for every descriptor whose class names contain no `.` (`RenderParseExact`). In general `Render(ParseType(s))` is `Normalise(s)` (`RenderParse`).
- **Empty class names.** A class name may be empty (`L;`), as the production "any characters except `;`" allows.

## Model

| member | source | states |
|---|---|---|
| Types.KindOf | bombe/src/test/java/org/cadixdev/bombe/test/type/TypeTest.java:86-92 | a character names a base type exactly when it is one of the eight codes `ZCBSIJFD`, and the base type it names has that character as its code |
| Types.CodeNamesKind | bombe/src/test/java/org/cadixdev/bombe/test/type/TypeTest.java:86-92 | the code of a base type and the kind of a character are inverse: `Code(k) == c` iff `KindOf(c) == Some(k)`, and every code is one of the eight |
| Types.Normalise | bombe/src/test/java/org/cadixdev/bombe/test/type/TypeTest.java:127-131 | the normalised name has the same length, every `.` becomes `/`, every other character is kept, and no `.` is left |
| Types.NormaliseWithoutDots | bombe/src/test/java/org/cadixdev/bombe/test/type/TypeTest.java:127-131 | a name already in internal form is left unchanged |
| Types.NormaliseIdempotent | bombe/src/test/java/org/cadixdev/bombe/test/type/TypeTest.java:127-131 | normalising twice gives the same name as normalising once |
| Types.NormaliseAppend | bombe/src/test/java/org/cadixdev/bombe/test/type/TypeTest.java:127-131 | normalisation distributes over concatenation |
| Types.NormaliseKeeps | bombe/src/test/java/org/cadixdev/bombe/test/type/TypeTest.java:127-131 | normalisation adds or removes no character other than `.` and `/` (so a name gains no `;`) |
| Types.MkObject | bombe/src/test/java/org/cadixdev/bombe/test/type/TypeTest.java:127-131 | the object-type constructor yields an object type whose stored name has no `.`, has the input's length, contains `;` iff the input does, and equals the input when the input has no `.` |
| Types.Brackets | bombe/src/test/java/org/cadixdev/bombe/test/type/TypeTest.java:67-76 | `n` dimensions render as exactly `n` `[` characters |
| Types.Render | bombe/src/test/java/org/cadixdev/bombe/test/type/TypeTest.java:72 | every descriptor is non-empty; it starts with `[` for an array of at least one dimension and never for any other variant |
| Descriptors.LeadingBrackets | bombe/src/test/java/org/cadixdev/bombe/test/type/TypeTest.java:67-76 | the dimension count is the length of the maximal run of `[` at the start of the input |
| Descriptors.IndexOf | bombe/src/test/java/org/cadixdev/bombe/test/type/TypeTest.java:78-84 | the result is the position of the first `;` ending a class name, or the length when there is none |
| Descriptors.ParseElement | bombe/src/test/java/org/cadixdev/bombe/test/type/TypeTest.java:78-92 | a parsed array component is a base type or an object type with an internal name; a failure reports the input as an invalid descriptor |
| Descriptors.ParseField | bombe/src/test/java/org/cadixdev/bombe/test/type/TypeTest.java:104-108 | `FieldType.of` only ever yields a field type: never void, and arrays have one dimension count of at least one over a non-array component; a failure is an invalid-descriptor error for the input |
| Descriptors.ParseType | bombe/src/test/java/org/cadixdev/bombe/test/type/TypeTest.java:95-108 | `Type.of` yields only well-formed values, yields void exactly for `V`, and reports every other failure as an invalid-descriptor error |
| Descriptors.ObjectBranchAccepts | bombe/src/test/java/org/cadixdev/bombe/test/type/TypeTest.java:78-84 | an input starting with `L` has its first `;` as its last character exactly when it is an object descriptor of the grammar |
| Descriptors.ElementAcceptsExactly | bombe/src/test/java/org/cadixdev/bombe/test/type/TypeTest.java:78-92 | for input without a leading `[`, the component parser succeeds iff the input is a base or object descriptor |
| Descriptors.DropBrackets | bombe/src/test/java/org/cadixdev/bombe/test/type/TypeTest.java:67-76 | removing leading `[` characters does not change whether a string is a field descriptor |
| Descriptors.ParseFieldAcceptsExactly | bombe/src/test/java/org/cadixdev/bombe/test/type/TypeTest.java:104-108 | `FieldType.of(s)` succeeds iff `s` is a field descriptor of the grammar (both directions) |
| Descriptors.ParseTypeAcceptsExactly | bombe/src/test/java/org/cadixdev/bombe/test/type/TypeTest.java:104-108 | `Type.of(s)` succeeds iff `s` is `V` or a field descriptor (both directions), so an unknown leading character is always a failure |
| Descriptors.ParseFieldRejectsOnlyVoid | bombe/src/test/java/org/cadixdev/bombe/test/type/TypeTest.java:104-108 | `FieldType.of` succeeds exactly where `Type.of` succeeds with something other than void, and then gives the same value |
| Descriptors.IndexOfAfter | bombe/src/test/java/org/cadixdev/bombe/test/type/TypeTest.java:78-84 | the `;` after a class name free of `;` is the first one |
| Descriptors.ParseObjectDescriptor | bombe/src/test/java/org/cadixdev/bombe/test/type/TypeTest.java:78-84 | `L` name `;` parses, through every entry point, to the object type the constructor builds from that name |
| Descriptors.LeadingBracketsOf | bombe/src/test/java/org/cadixdev/bombe/test/type/TypeTest.java:67-76 | `n` brackets before a non-array component count as exactly `n` dimensions, and what follows them is the component |
| Descriptors.ParseArrayDescriptor | bombe/src/test/java/org/cadixdev/bombe/test/type/TypeTest.java:67-76 | `n >= 1` brackets before a component parse to one `Array(n, component)`, not to nested arrays; a bad component makes the whole descriptor fail |
| Descriptors.ParseElementRender | bombe/src/test/java/org/cadixdev/bombe/test/type/TypeTest.java:78-92 | a base or object component parses back from its rendering |
| Descriptors.ParseFieldRender | bombe/src/test/java/org/cadixdev/bombe/test/type/TypeTest.java:67-92 | `FieldType.of(t.toString()) == t` for every field type `t` |
| Descriptors.ParseRender | bombe/src/test/java/org/cadixdev/bombe/test/type/TypeTest.java:67-102 | `Type.of(t.toString()) == t` for every well-formed type `t` |
| Descriptors.RenderIsDescriptor | bombe/src/test/java/org/cadixdev/bombe/test/type/TypeTest.java:67-102 | the rendering of every well-formed type is a descriptor of the grammar, and a field descriptor for a field type |
| Descriptors.RenderInjective | bombe/src/test/java/org/cadixdev/bombe/test/type/TypeTest.java:91 | two well-formed types are equal iff their descriptor strings are equal |
| Descriptors.RenderObject | bombe/src/test/java/org/cadixdev/bombe/test/type/TypeTest.java:78-84 | the object type built from a name renders as the normalised `L` name `;` |
| Descriptors.RenderParseElement | bombe/src/test/java/org/cadixdev/bombe/test/type/TypeTest.java:78-92 | a parsed component renders as its input with the class name's dots normalised |
| Descriptors.RenderParse | bombe/src/test/java/org/cadixdev/bombe/test/type/TypeTest.java:67-102 | `Type.of(s).toString()` is `s` with every `.` turned into `/`, for every `s` that parses |
| Descriptors.RenderParseExact | bombe/src/test/java/org/cadixdev/bombe/test/type/TypeTest.java:67-102 | every descriptor of the grammar whose class names are in internal form parses, and renders back to exactly itself |
| NativeTypes.PrimitiveFor | bombe/src/test/java/org/cadixdev/bombe/test/type/TypeTest.java:54-65 | every base type is the mapping of exactly one primitive class |
| NativeTypes.Element | bombe/src/test/java/org/cadixdev/bombe/test/type/TypeTest.java:111-125 | the innermost component of a class handle is not an array class |
| NativeTypes.FieldTypeOf | bombe/src/test/java/org/cadixdev/bombe/test/type/TypeTest.java:111-125 | a field class maps to an array type iff it is an array class; then its dimension count is the handle's array depth (at least one) and its component is neither an array nor void |
| NativeTypes.TypeOf | bombe/src/test/java/org/cadixdev/bombe/test/type/TypeTest.java:122-124 | `Type.of(Class)` yields void exactly for the void class |
| NativeTypes.PrimitiveClassMapping | bombe/src/test/java/org/cadixdev/bombe/test/type/TypeTest.java:116-120 | each primitive class maps to its base type, and distinct primitive classes map to distinct base types |
| NativeTypes.ArrayClassFolds | bombe/src/test/java/org/cadixdev/bombe/test/type/TypeTest.java:111-125 | an array class maps to one array type over the type of its innermost component, with the handle's depth as dimension count |
| NativeTypes.TypeOfWellFormed | bombe/src/test/java/org/cadixdev/bombe/test/type/TypeTest.java:111-125 | the type of every class whose names are binary names (no `;`) satisfies the representation invariant |
| NativeTypes.ElementHasBinaryNames | bombe/src/test/java/org/cadixdev/bombe/test/type/TypeTest.java:111-125 | the innermost component of a handle with binary names has a binary name |
| NativeTypes.DescriptorOfArray | bombe/src/test/java/org/cadixdev/bombe/test/type/TypeTest.java:111-125 | the descriptor of an array class is its depth in brackets followed by the descriptor of its innermost component |
| NativeTypes.ElementAgreesWithParse | bombe/src/test/java/org/cadixdev/bombe/test/type/TypeTest.java:111-120 | a primitive or named class maps to what its descriptor parses to, and that descriptor is not `V` |
| NativeTypes.FieldTypeOfAgreesWithParse | bombe/src/test/java/org/cadixdev/bombe/test/type/TypeTest.java:111-120 | every field class maps to what `FieldType.of` gives for its descriptor |
| NativeTypes.TypeOfAgreesWithParse | bombe/src/test/java/org/cadixdev/bombe/test/type/TypeTest.java:111-125 | `Type.of(c)` equals `Type.of` applied to the descriptor of `c`, for every class handle with binary names, the void class included |
| NativeTypes.NamedClassMapping | bombe/src/test/java/org/cadixdev/bombe/test/type/TypeTest.java:112-114 | a named class maps to the object type of its normalised name, which renders as `L` + normalised name + `;` |
| TypeTest.ArrayType | bombe/src/test/java/org/cadixdev/bombe/test/type/TypeTest.java:67-76 | `[[I` parses to `Array(2, Base(Int))` and that value renders as `[[I` |
| TypeTest.ObjectType | bombe/src/test/java/org/cadixdev/bombe/test/type/TypeTest.java:78-84 | `Lme/jamiemansfield/Test;` parses to an object type that renders as exactly that string |
| TypeTest.BaseType | bombe/src/test/java/org/cadixdev/bombe/test/type/TypeTest.java:86-93 | `Z` parses to the boolean base type, which renders as `Z` |
| TypeTest.VoidType | bombe/src/test/java/org/cadixdev/bombe/test/type/TypeTest.java:95-102 | `V` parses through `Type.of` to void, which renders as `V` |
| TypeTest.InvalidType | bombe/src/test/java/org/cadixdev/bombe/test/type/TypeTest.java:104-108 | `Type.of("A")` and `FieldType.of("V")` both fail as invalid descriptors |
| TypeTest.OfClass | bombe/src/test/java/org/cadixdev/bombe/test/type/TypeTest.java:54-65 | `String.class` maps to an object type rendering as `Ljava/lang/String;`; every primitive class is in the expected table and maps to its entry; `Void.TYPE` maps to void |
| TypeTest.NormaliseClass | bombe/src/test/java/org/cadixdev/bombe/test/type/TypeTest.java:127-131 | the object type built from `java.lang.String` stores `java/lang/String` |

## Left out

- The inheritance provider of `bombe-asm` (`ClassProviderInheritanceProvider.java`) is not modelled. It reads class bytes from an external source and decodes them with ASM. The only logic of its own maps missing bytes to an empty result.
- Java reflection is not modelled. `Class` objects become the abstract `NativeClass` handle, and the class name is given as a field of that handle.
- Object identity, `hashCode` and the singleton instances of `BaseType` and `VoidType` are not modelled. Equality of datatype values takes their place.
- The exception `IllegalStateException` is not modelled. A failed parse returns `Err(InvalidDescriptor(s))` instead.
- Generic signatures, method descriptors other than `V`, and caching or chaining of inheritance providers are not modelled, because they lie outside the type model.
- The limit of 255 array dimensions from the JVM specification is not modelled, because nothing in the tested behaviour enforces it.
- The JUnit assertions and the `HashMap` fixture are test scaffolding, so they are not modelled. The fixture's table of expected mappings becomes the constant `TypeTest.BaseMappings`.
