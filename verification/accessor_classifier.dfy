/**
 * Which methods are effectively accessors of a field of their own type.
 * A getter takes no parameter and its whole body returns the field
 * (`return foo;` or `return this.foo;`) with exactly the field's type. A
 * setter takes one parameter of exactly the field's type and its whole
 * body stores that parameter in the field (`this.foo = foo;` or
 * `foo = newfoo;`).
 */
module AccessorClassifier {
  import opened Text
  import opened AccessorModel
  import opened AccessorNames

  /** The first field of `t` called `name`. */
  function FieldNamed(fields: seq<Field>, name: string): (r: Option<Field>)
    ensures r.Some? ==> r.value in fields && r.value.name == name
    ensures r.None? <==> forall f :: f in fields ==> f.name != name
  {
    if fields == [] then None
    else if fields[0].name == name then Some(fields[0])
    else FieldNamed(fields[1..], name)
  }

  /** The field an expression reads: `foo` or `this.foo`. */
  function ReadField(e: Expr): Option<string>
  {
    match e
    case Name(x) => Some(x)
    case ThisField(x) => Some(x)
    case _ => None
  }

  /**
   * The field a statement stores the parameter `p` in. A bare name on the
   * left must differ from the parameter, since `foo = foo` assigns the
   * parameter to itself.
   */
  function StoredField(s: Stmt, p: Param): Option<string>
  {
    if s.Assign? && s.rhs == Name(p.name) then
      match s.lhs
      case ThisField(x) => Some(x)
      case Name(x) => if x != p.name then Some(x) else None
      case _ => None
    else None
  }

  function EffectiveGetterField(t: TypeDecl, m: Method): Option<Field>
  {
    if m.params == [] && |m.body| == 1 && m.body[0].Return? then
      match ReadField(m.body[0].value)
      case Some(x) =>
        (match FieldNamed(t.fields, x)
         case Some(f) => if f.ty == m.returnType then Some(f) else None
         case None => None)
      case None => None
    else None
  }

  function EffectiveSetterField(t: TypeDecl, m: Method): Option<Field>
  {
    if |m.params| == 1 && |m.body| == 1 then
      match StoredField(m.body[0], m.params[0])
      case Some(x) =>
        (match FieldNamed(t.fields, x)
         case Some(f) => if f.ty == m.params[0].ty then Some(f) else None
         case None => None)
      case None => None
    else None
  }

  datatype AccessorKind = Getter | Setter

  /** The name the recipe of `kind` wants for `m`, when `m` is such an accessor. */
  function TargetName(kind: AccessorKind, t: TypeDecl, m: Method): Option<string>
  {
    match kind
    case Getter =>
      (match EffectiveGetterField(t, m) case Some(f) => Some(GetterName(f)) case None => None)
    case Setter =>
      (match EffectiveSetterField(t, m) case Some(f) => Some(SetterName(f)) case None => None)
  }

  /** Field names are distinct within a type, as the Java compiler requires. */
  predicate DistinctFieldNames(t: TypeDecl)
  {
    forall i, j :: 0 <= i < j < |t.fields| ==> t.fields[i].name != t.fields[j].name
  }

  /** The two getter bodies: `return x;` and `return this.x;`. */
  predicate ReturnsField(body: seq<Stmt>, x: string)
  {
    body == [Return(Name(x))] || body == [Return(ThisField(x))]
  }

  /** The two setter bodies: `this.x = p;`, and `x = p;` where `x` is not `p`. */
  predicate StoresParam(body: seq<Stmt>, x: string, p: Param)
  {
    body == [Assign(ThisField(x), Name(p.name))] || (x != p.name && body == [Assign(Name(x), Name(p.name))])
  }

  /** A method is a getter of `f` exactly when it returns `f` of the exact type and takes nothing. */
  lemma EffectiveGetterFieldIff(t: TypeDecl, m: Method, f: Field)
    requires DistinctFieldNames(t)
    ensures EffectiveGetterField(t, m) == Some(f) <==>
              f in t.fields && m.params == [] && ReturnsField(m.body, f.name) && f.ty == m.returnType
  {
    if f in t.fields && m.params == [] && ReturnsField(m.body, f.name) && f.ty == m.returnType {
      DistinctNamesUnique(t, f);
    }
  }

  /** A method is a setter of `f` exactly when it stores its one parameter, of the exact type, in `f`. */
  lemma EffectiveSetterFieldIff(t: TypeDecl, m: Method, f: Field)
    requires DistinctFieldNames(t)
    ensures EffectiveSetterField(t, m) == Some(f) <==>
              f in t.fields && |m.params| == 1 && StoresParam(m.body, f.name, m.params[0]) && f.ty == m.params[0].ty
  {
    if f in t.fields && |m.params| == 1 && StoresParam(m.body, f.name, m.params[0]) && f.ty == m.params[0].ty {
      DistinctNamesUnique(t, f);
    }
  }

  lemma {:induction false} DistinctNamesUnique(t: TypeDecl, f: Field)
    requires DistinctFieldNames(t) && f in t.fields
    ensures FieldNamed(t.fields, f.name) == Some(f)
  {
    var k :| 0 <= k < |t.fields| && t.fields[k] == f;
    FieldNamedAt(t.fields, k);
  }

  lemma {:induction false} FieldNamedAt(fields: seq<Field>, k: nat)
    requires k < |fields|
    requires forall i :: 0 <= i < k ==> fields[i].name != fields[k].name
    ensures FieldNamed(fields, fields[k].name) == Some(fields[k])
  {
    if k > 0 {
      FieldNamedAt(fields[1..], k - 1);
    }
  }

  // The classifications the recipes' tests rely on.

  const IntTy := Primitive("int")
  const LongTy := Primitive("long")

  /** `long getFoo() { return foo; }` over `int foo` is not a getter: no widening. */
  lemma UpcastIsNotGetter()
    ensures EffectiveGetterField(TypeDecl("A", [Field("foo", IntTy)], []),
                                 Method("getFoo", [], LongTy, [Return(Name("foo"))], [])) == None
  {
  }

  /** A `BufferedReader` getter over a `LineNumberReader` field is not a getter either. */
  lemma SupertypeReturnIsNotGetter()
    ensures EffectiveGetterField(
              TypeDecl("A", [Field("foo", Declared("java.io.LineNumberReader"))], []),
              Method("giveFoo", [], Declared("java.io.BufferedReader"), [Return(Name("foo"))], [])) == None
  {
  }

  /** `this.foo = foo` and `foo = newfoo` are both setters of `foo`. */
  lemma BothSetterForms()
    ensures var t := TypeDecl("A", [Field("foo", IntTy)], []);
            && EffectiveSetterField(t, Method("storeFoo", [Param("foo", IntTy)], Primitive("void"),
                                                [Assign(ThisField("foo"), Name("foo"))], [])) == Some(Field("foo", IntTy))
            && EffectiveSetterField(t, Method("storeFoo", [Param("newfoo", IntTy)], Primitive("void"),
                                                [Assign(Name("foo"), Name("newfoo"))], [])) == Some(Field("foo", IntTy))
  {
  }

  /** `foo = foo` only assigns the parameter to itself. */
  lemma SelfAssignmentIsNotSetter()
    ensures EffectiveSetterField(TypeDecl("A", [Field("foo", IntTy)], []),
                                 Method("storeFoo", [Param("foo", IntTy)], Primitive("void"),
                                        [Assign(Name("foo"), Name("foo"))], [])) == None
  {
  }

  /** A `boolean` parameter stored in a `Boolean` field, or the reverse, is not a setter: no boxing. */
  lemma BoxingIsNotSetter()
    ensures var boxed := Declared("java.lang.Boolean");
            && EffectiveSetterField(TypeDecl("A", [Field("foo", boxed)], []),
                                    Method("storeFoo", [Param("foo", PrimitiveBoolean)], Primitive("void"),
                                           [Assign(ThisField("foo"), Name("foo"))], [])) == None
            && EffectiveSetterField(TypeDecl("A", [Field("foo", PrimitiveBoolean)], []),
                                    Method("storeFoo", [Param("foo", boxed)], Primitive("void"),
                                           [Assign(ThisField("foo"), Name("foo"))], [])) == None
  {
  }
}
