/**
 * The accessor names Lombok generates for a field, which the renaming
 * recipes adopt: `get` + capitalised name; for a primitive `boolean`,
 * `is` + capitalised name, or the name itself when it already reads
 * `isX`; `set` + capitalised name for every setter.
 */
module AccessorNames {
  import opened Text
  import opened AccessorModel

  /** `name` already has the shape `is` followed by an upper-case letter. */
  predicate HasIsPrefix(name: string)
  {
    |name| > 2 && name[..2] == "is" && IsAsciiUpper(name[2])
  }

  function GetterName(f: Field): string
  {
    if f.ty == PrimitiveBoolean then
      if HasIsPrefix(f.name) then f.name else "is" + Capitalize(f.name)
    else "get" + Capitalize(f.name)
  }

  function SetterName(f: Field): string
  {
    "set" + Capitalize(f.name)
  }

  /**
   * The field name a conventional accessor name refers to: the name with
   * its `get`/`set`/`is` prefix removed and the next letter lower-cased.
   */
  function PropertyName(accessor: string, prefix: string): string
    requires StartsWith(accessor, prefix)
  {
    LowerFirst(accessor[|prefix|..])
  }

  /** Fields named in the Java convention: a lower-case ASCII letter first. */
  predicate ConventionalName(name: string)
  {
    name != [] && IsAsciiLower(name[0])
  }

  lemma LowerFirstCapitalize(name: string)
    requires ConventionalName(name)
    ensures LowerFirst(Capitalize(name)) == name
  {
    assert Capitalize(name)[1..] == name[1..];
    assert LowerFirst(Capitalize(name)) == [name[0]] + name[1..];
  }

  /**
   * Round trip: the getter of a conventionally named field leads back to
   * that field.
   */
  lemma GetterNameRoundTrip(f: Field)
    requires ConventionalName(f.name)
    ensures f.ty != PrimitiveBoolean ==> PropertyName(GetterName(f), "get") == f.name
    ensures f.ty == PrimitiveBoolean && !HasIsPrefix(f.name) ==> PropertyName(GetterName(f), "is") == f.name
  {
    var g := GetterName(f);
    if f.ty == PrimitiveBoolean {
      if !HasIsPrefix(f.name) {
        assert g[2..] == Capitalize(f.name);
      }
    } else {
      assert g[3..] == Capitalize(f.name);
    }
    LowerFirstCapitalize(f.name);
  }

  lemma SetterNameRoundTrip(f: Field)
    requires ConventionalName(f.name)
    ensures StartsWith(SetterName(f), "set")
    ensures PropertyName(SetterName(f), "set") == f.name
  {
    assert SetterName(f)[3..] == Capitalize(f.name);
    LowerFirstCapitalize(f.name);
  }

  /** A setter name depends on the field name only: boxed or primitive, `boolean` or not. */
  lemma SetterNameIgnoresType(name: string, t1: Ty, t2: Ty)
    ensures SetterName(Field(name, t1)) == SetterName(Field(name, t2))
  {
  }

  /** A primitive `boolean` field already named `isFoo` keeps that name: never `isIsFoo`. */
  lemma NoDoubleIsPrefix()
    ensures GetterName(Field("isFoo", PrimitiveBoolean)) == "isFoo"
    ensures GetterName(Field("foo", PrimitiveBoolean)) == "isFoo"
  {
    assert HasIsPrefix("isFoo");
  }

  /** A boxed `Boolean` is not special: `Foo` gives `getFoo` and `isFoo` gives `getIsFoo`. */
  lemma BoxedBooleanUsesGet()
    ensures GetterName(Field("Foo", Declared("java.lang.Boolean"))) == "getFoo"
    ensures GetterName(Field("isFoo", Declared("java.lang.Boolean"))) == "getIsFoo"
  {
  }

  /**
   * Distinct conventional fields get distinct getters, as long as both are
   * non-boolean or both are primitive booleans not already named `isX`.
   */
  lemma GetterNameInjective(f: Field, g: Field)
    requires ConventionalName(f.name) && ConventionalName(g.name)
    requires (f.ty != PrimitiveBoolean && g.ty != PrimitiveBoolean) ||
             (f.ty == PrimitiveBoolean && g.ty == PrimitiveBoolean && !HasIsPrefix(f.name) && !HasIsPrefix(g.name))
    requires GetterName(f) == GetterName(g)
    ensures f.name == g.name
  {
    GetterNameRoundTrip(f);
    GetterNameRoundTrip(g);
  }

  /**
   * Without that condition two fields can claim one getter: primitive
   * booleans `foo` and `isFoo` both want `isFoo`.
   */
  lemma BooleanGetterCollision()
    ensures GetterName(Field("foo", PrimitiveBoolean)) == GetterName(Field("isFoo", PrimitiveBoolean))
  {
    assert HasIsPrefix("isFoo");
  }

  lemma SetterNameInjective(f: Field, g: Field)
    requires ConventionalName(f.name) && ConventionalName(g.name)
    requires SetterName(f) == SetterName(g)
    ensures f.name == g.name
  {
    SetterNameRoundTrip(f);
    SetterNameRoundTrip(g);
  }
}
