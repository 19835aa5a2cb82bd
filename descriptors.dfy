/**
 * Parsing of descriptor strings into type values (`Type.of(String)` and
 * `FieldType.of(String)`), checked against the grammar of field descriptors
 * and shown to be the inverse of rendering.
 */
module Descriptors {
  import opened Wrappers
  import opened Types

  /** The one failure of parsing: the string is not a descriptor of the expected kind. */
  datatype DescriptorError = InvalidDescriptor(descriptor: string)

  type ParseResult = Result<Type, DescriptorError>

  // ---------------------------------------------------------------------------
  // The grammar, as a reference definition
  // ---------------------------------------------------------------------------

  /** `BaseType ::= B | C | D | F | I | J | S | Z` */
  predicate IsBaseDescriptor(s: string)
  {
    |s| == 1 && s[0] in BaseCodes
  }

  /** `ObjectType ::= L ClassName ;` where the class name holds no `;` */
  predicate IsObjectDescriptor(s: string)
  {
    |s| >= 2 && s[0] == 'L' && s[|s| - 1] == ';' && ';' !in s[1..|s| - 1]
  }

  /** `FieldType ::= BaseType | ObjectType | [ FieldType` */
  predicate IsFieldDescriptor(s: string)
    decreases |s|
  {
    if |s| >= 1 && s[0] == '[' then IsFieldDescriptor(s[1..])
    else IsBaseDescriptor(s) || IsObjectDescriptor(s)
  }

  /** `Type ::= V | FieldType` */
  predicate IsTypeDescriptor(s: string)
  {
    s == "V" || IsFieldDescriptor(s)
  }

  // ---------------------------------------------------------------------------
  // The parser
  // ---------------------------------------------------------------------------

  /** The number of `[` characters at the start of `s`. */
  function LeadingBrackets(s: string): (n: nat)
    ensures n <= |s|
    ensures forall i :: 0 <= i < n ==> s[i] == '['
    ensures n < |s| ==> s[n] != '['
  {
    if |s| >= 1 && s[0] == '[' then 1 + LeadingBrackets(s[1..]) else 0
  }

  /** The position of the first `c` in `s`, or `|s|` when there is none. */
  function IndexOf(s: string, c: char): (i: nat)
    ensures i <= |s|
    ensures i < |s| ==> s[i] == c
    ensures c !in s[..i]
  {
    if |s| == 0 then 0
    else if s[0] == c then 0
    else
      var j := IndexOf(s[1..], c);
      assert s[..1 + j] == [s[0]] + s[1..][..j];
      1 + j
  }

  /**
   * Parses an array component: a base type or an object type. An object descriptor
   * must end at its first `;`; a base code must be the whole string.
   */
  function ParseElement(s: string): (r: ParseResult)
    ensures r.Ok? ==> IsElementType(r.value)
    ensures r.Err? ==> r.error == InvalidDescriptor(s)
  {
    if |s| == 0 then Err(InvalidDescriptor(s))
    else if s[0] == 'L' then
      var end := 1 + IndexOf(s[1..], ';');
      if end == |s| - 1 then Ok(MkObject(s[1..end])) else Err(InvalidDescriptor(s))
    else
      match KindOf(s[0])
      case Some(k) => if |s| == 1 then Ok(Base(k)) else Err(InvalidDescriptor(s))
      case None => Err(InvalidDescriptor(s))
  }

  /**
   * `FieldType.of(String)`: the leading `[` characters all become one dimension
   * count, followed by exactly one component. `V` is rejected.
   */
  function ParseField(s: string): (r: ParseResult)
    ensures r.Ok? ==> IsFieldType(r.value)
    ensures r.Err? ==> r.error == InvalidDescriptor(s)
  {
    var dims := LeadingBrackets(s);
    if dims == 0 then ParseElement(s)
    else
      match ParseElement(s[dims..])
      case Ok(c) => Ok(Array(dims, c))
      case Err(_) => Err(InvalidDescriptor(s))
  }

  /** `Type.of(String)`: the void descriptor or a field descriptor. */
  function ParseType(s: string): (r: ParseResult)
    ensures r.Ok? ==> WellFormed(r.value)
    ensures r.Ok? && r.value == Void <==> s == "V"
    ensures r.Err? ==> r.error == InvalidDescriptor(s)
  {
    if s == "V" then Ok(Void) else ParseField(s)
  }

  // ---------------------------------------------------------------------------
  // The parser accepts exactly the grammar
  // ---------------------------------------------------------------------------

  /** The object branch of the parser accepts exactly the object descriptors. */
  lemma ObjectBranchAccepts(s: string)
    requires |s| >= 1 && s[0] == 'L'
    ensures 1 + IndexOf(s[1..], ';') == |s| - 1 <==> IsObjectDescriptor(s)
  {
    var t := s[1..];
    var i := IndexOf(t, ';');
    if IsObjectDescriptor(s) {
      assert s[1..|s| - 1] == t[..|t| - 1];
    }
  }

  /** A string without leading `[` parses as a component iff it is a base or object descriptor. */
  lemma {:induction false} ElementAcceptsExactly(s: string)
    requires |s| == 0 || s[0] != '['
    ensures ParseElement(s).Ok? <==> IsFieldDescriptor(s)
  {
    if |s| >= 1 && s[0] == 'L' {
      ObjectBranchAccepts(s);
    }
  }

  /** Dropping `n` leading `[` does not change whether a string is a field descriptor, unless nothing is left. */
  lemma {:induction false} DropBrackets(s: string, n: nat)
    requires n <= |s|
    requires forall i :: 0 <= i < n ==> s[i] == '['
    ensures IsFieldDescriptor(s) <==> IsFieldDescriptor(s[n..])
  {
    if n > 0 {
      assert s[1..][n - 1..] == s[n..];
      DropBrackets(s[1..], n - 1);
    }
  }

  /** `FieldType.of` succeeds exactly on the field descriptors of the grammar. */
  lemma ParseFieldAcceptsExactly(s: string)
    ensures ParseField(s).Ok? <==> IsFieldDescriptor(s)
  {
    var dims := LeadingBrackets(s);
    DropBrackets(s, dims);
    ElementAcceptsExactly(s[dims..]);
    if dims == |s| {
      assert !IsFieldDescriptor(s[dims..]);
    }
  }

  /** `Type.of` succeeds exactly on the type descriptors of the grammar. */
  lemma ParseTypeAcceptsExactly(s: string)
    ensures ParseType(s).Ok? <==> IsTypeDescriptor(s)
  {
    ParseFieldAcceptsExactly(s);
  }

  /** The field entry point differs from the general one only in rejecting `V`. */
  lemma ParseFieldRejectsOnlyVoid(s: string)
    ensures ParseField(s).Ok? <==> ParseType(s).Ok? && ParseType(s).value != Void
    ensures ParseField(s).Ok? ==> ParseField(s) == ParseType(s)
  {
    if s == "V" {
      assert LeadingBrackets(s) == 0;
      assert KindOf('V') == None;
    }
  }

  // ---------------------------------------------------------------------------
  // Rendering and parsing are inverse
  // ---------------------------------------------------------------------------

  /** The first `;` of `name + ";" + rest` is the one after `name` when `name` has none. */
  lemma IndexOfAfter(name: string, rest: string)
    requires ';' !in name
    ensures IndexOf(name + ";" + rest, ';') == |name|
  {
    var s := name + ";" + rest;
    assert forall j :: 0 <= j < |name| ==> s[j] == name[j];
    assert s[|name|] == ';';
  }

  /** An object descriptor parses to the normalised class name it spells. */
  lemma ParseObjectDescriptor(name: string)
    requires ';' !in name
    ensures ParseElement("L" + name + ";") == Ok(MkObject(name))
    ensures ParseField("L" + name + ";") == Ok(MkObject(name))
    ensures ParseType("L" + name + ";") == Ok(MkObject(name))
  {
    var s := "L" + name + ";";
    assert s[1..] == name + ";" + "";
    IndexOfAfter(name, "");
    assert s[1..1 + |name|] == name;
    assert LeadingBrackets(s) == 0;
  }

  /** `dims` copies of `[` before a component count as exactly `dims` dimensions. */
  lemma {:induction false} LeadingBracketsOf(dims: nat, rest: string)
    requires |rest| == 0 || rest[0] != '['
    ensures LeadingBrackets(Brackets(dims) + rest) == dims
    ensures (Brackets(dims) + rest)[dims..] == rest
  {
    if dims > 0 {
      assert (Brackets(dims) + rest)[1..] == Brackets(dims - 1) + rest;
      LeadingBracketsOf(dims - 1, rest);
    }
  }

  /** Parsing `dims` brackets before a component yields one array of `dims` dimensions. */
  lemma ParseArrayDescriptor(dims: nat, rest: string)
    requires dims >= 1
    requires |rest| == 0 || rest[0] != '['
    ensures ParseElement(rest).Ok? ==> ParseField(Brackets(dims) + rest) == Ok(Array(dims, ParseElement(rest).value))
    ensures ParseElement(rest).Err? ==> ParseField(Brackets(dims) + rest).Err?
  {
    LeadingBracketsOf(dims, rest);
  }

  /** A component parses back from its rendering. */
  lemma ParseElementRender(t: Type)
    requires IsElementType(t)
    ensures ParseElement(Render(t)) == Ok(t)
  {
    if t.Object? {
      ParseObjectDescriptor(t.className);
    } else {
      CodeNamesKind(t.kind, Code(t.kind));
    }
  }

  /** `FieldType.of(t.toString()) == t` for every field type `t`. */
  lemma ParseFieldRender(t: Type)
    requires IsFieldType(t)
    ensures ParseField(Render(t)) == Ok(t)
  {
    if t.Array? {
      ParseElementRender(t.component);
      ParseArrayDescriptor(t.dims, Render(t.component));
    } else {
      ParseElementRender(t);
    }
  }

  /** `Type.of(t.toString()) == t` for every well-formed type `t`. */
  lemma ParseRender(t: Type)
    requires WellFormed(t)
    ensures ParseType(Render(t)) == Ok(t)
  {
    if !t.Void? {
      ParseFieldRender(t);
      if t.Base? {
        CodeNamesKind(t.kind, 'V');
      }
    }
  }

  /** Every rendering of a well-formed type is a descriptor of the grammar. */
  lemma RenderIsDescriptor(t: Type)
    requires WellFormed(t)
    ensures IsTypeDescriptor(Render(t))
    ensures IsFieldType(t) ==> IsFieldDescriptor(Render(t))
  {
    ParseRender(t);
    ParseTypeAcceptsExactly(Render(t));
    if IsFieldType(t) {
      ParseFieldRender(t);
      ParseFieldAcceptsExactly(Render(t));
    }
  }

  /** Two well-formed types are equal iff their descriptor strings are equal. */
  lemma RenderInjective(t: Type, u: Type)
    requires WellFormed(t) && WellFormed(u)
    ensures Render(t) == Render(u) <==> t == u
  {
    ParseRender(t);
    ParseRender(u);
  }

  /** Rendering the object built from `name` normalises the descriptor spelling `name`. */
  lemma RenderObject(name: string)
    ensures Render(MkObject(name)) == Normalise("L" + name + ";")
  {
    NormaliseAppend("L" + name, ";");
    NormaliseAppend("L", name);
  }

  /** A parsed component renders as the input with its class-name dots normalised. */
  lemma RenderParseElement(s: string)
    requires ParseElement(s).Ok?
    ensures Render(ParseElement(s).value) == Normalise(s)
  {
    if s[0] == 'L' {
      var end := 1 + IndexOf(s[1..], ';');
      assert s == "L" + s[1..end] + ";";
      RenderObject(s[1..end]);
    } else {
      assert |s| == 1 && s[0] != '.';
    }
  }

  /** `Type.of(s).toString()` is `s` with the dots of class names turned into `/`. */
  lemma RenderParse(s: string)
    requires ParseType(s).Ok?
    ensures Render(ParseType(s).value) == Normalise(s)
  {
    if s != "V" {
      var dims := LeadingBrackets(s);
      if dims == 0 {
        RenderParseElement(s);
      } else {
        RenderParseElement(s[dims..]);
        assert s == s[..dims] + s[dims..];
        assert s[..dims] == Brackets(dims);
        NormaliseAppend(s[..dims], s[dims..]);
        NormaliseWithoutDots(s[..dims]);
      }
    }
  }

  /** `Type.of(s).toString() == s` for every descriptor whose class names are in internal form. */
  lemma RenderParseExact(s: string)
    requires IsTypeDescriptor(s) && '.' !in s
    ensures ParseType(s).Ok? && Render(ParseType(s).value) == s
  {
    ParseTypeAcceptsExactly(s);
    RenderParse(s);
    NormaliseWithoutDots(s);
  }
}
