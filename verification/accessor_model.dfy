/**
 * The program model shared by the getter and setter renaming recipes: a
 * universe of type declarations (nested types included, each under its own
 * fully qualified name), their fields, and their methods with abstract
 * bodies. Calls carry the method they resolve to; a method lists every
 * method it overrides, directly or transitively.
 */
module AccessorModel {
  import opened Text

  datatype Ty = Primitive(keyword: string) | Declared(fqn: string)

  const PrimitiveBoolean := Primitive("boolean")

  datatype Field = Field(name: string, ty: Ty)

  datatype Param = Param(name: string, ty: Ty)

  /** A method's identity within its type: name and parameter types. */
  datatype Signature = Signature(name: string, paramTypes: seq<Ty>)

  /** A resolved method: the type declaring it and its signature. */
  datatype MethodRef = MethodRef(owner: string, sig: Signature)

  datatype Expr =
    | Name(id: string)
    | ThisField(id: string)
    | Literal(text: string)
      /** `receiver.m(args)`, resolved to `target`. */
    | Call(receiver: Option<Expr>, target: MethodRef, args: seq<Expr>)

  datatype Stmt = Return(value: Expr) | Assign(lhs: Expr, rhs: Expr) | Eval(e: Expr)

  datatype Method = Method(name: string, params: seq<Param>, returnType: Ty,
                           body: seq<Stmt>, overrides: seq<MethodRef>)

  datatype TypeDecl = TypeDecl(fqn: string, fields: seq<Field>, methods: seq<Method>)

  function ParamTypes(params: seq<Param>): (r: seq<Ty>)
    ensures |r| == |params| && forall i :: 0 <= i < |params| ==> r[i] == params[i].ty
  {
    seq(|params|, i requires 0 <= i < |params| => params[i].ty)
  }

  function SigOf(m: Method): Signature
  {
    Signature(m.name, ParamTypes(m.params))
  }

  function RefOf(t: TypeDecl, m: Method): MethodRef
  {
    MethodRef(t.fqn, SigOf(m))
  }

  /** Some type of the universe declares the method `ref`: a call to it resolves. */
  predicate Declares(u: seq<TypeDecl>, ref: MethodRef)
  {
    exists t, m :: t in u && m in t.methods && RefOf(t, m) == ref
  }

  /** A type named `owner` already has a method called `name`. */
  predicate NameTaken(u: seq<TypeDecl>, owner: string, name: string)
  {
    exists t, m :: t in u && m in t.methods && t.fqn == owner && m.name == name
  }

  /** Within each type, no two methods share a signature. */
  predicate DistinctSignatures(t: TypeDecl)
  {
    forall i, j :: 0 <= i < j < |t.methods| ==> SigOf(t.methods[i]) != SigOf(t.methods[j])
  }

  /**
   * Overriding as Java has it: an overriding method has the signature of
   * the method it overrides, and it also overrides whatever that method
   * overrides.
   */
  predicate WellFormedOverrides(u: seq<TypeDecl>)
  {
    forall t, m, r :: t in u && m in t.methods && r in m.overrides ==>
      && r.sig == SigOf(m)
      && forall t', m' :: t' in u && m' in t'.methods && RefOf(t', m') == r ==>
           forall r' :: r' in m'.overrides ==> r' in m.overrides
  }

  /** The methods of the universe that override `base`, in declaration order. */
  function Overriders(u: seq<TypeDecl>, base: MethodRef): (r: seq<MethodRef>)
    ensures forall x :: x in r <==> exists t, m :: t in u && m in t.methods && base in m.overrides && RefOf(t, m) == x
  {
    if u == [] then []
    else
      var t := u[0];
      var here := OverridersIn(t, t.methods, base);
      var rest := Overriders(u[1..], base);
      assert forall t' :: t' in u <==> t' == t || t' in u[1..];
      here + rest
  }

  function OverridersIn(t: TypeDecl, ms: seq<Method>, base: MethodRef): (r: seq<MethodRef>)
    ensures forall x :: x in r <==> exists m :: m in ms && base in m.overrides && RefOf(t, m) == x
  {
    if ms == [] then []
    else
      var rest := OverridersIn(t, ms[1..], base);
      assert forall m :: m in ms <==> m == ms[0] || m in ms[1..];
      if base in ms[0].overrides then [RefOf(t, ms[0])] + rest else rest
  }

  /** A universe in which no method overrides `base` lists no overriders of it. */
  lemma {:induction false} NoOverriders(u: seq<TypeDecl>, base: MethodRef)
    requires forall t, m :: t in u && m in t.methods ==> base !in m.overrides
    ensures Overriders(u, base) == []
  {
    if u != [] {
      NoOverridersIn(u[0], u[0].methods, base);
      NoOverriders(u[1..], base);
    }
  }

  lemma {:induction false} NoOverridersIn(t: TypeDecl, ms: seq<Method>, base: MethodRef)
    requires forall m :: m in ms ==> base !in m.overrides
    ensures OverridersIn(t, ms, base) == []
  {
    if ms != [] {
      NoOverridersIn(t, ms[1..], base);
    }
  }

  /** The methods renamed together with `base`: itself and all its overriders. */
  function Affected(u: seq<TypeDecl>, base: MethodRef): (r: seq<MethodRef>)
    ensures forall x :: x in r <==> x == base || exists t, m :: t in u && m in t.methods && base in m.overrides && RefOf(t, m) == x
  {
    [base] + Overriders(u, base)
  }
}
