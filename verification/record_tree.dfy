/**
 * The part of the Java syntax tree that the `@lombok.Value` to record
 * conversion reads and writes: class declarations, their annotations,
 * modifiers, implemented interfaces and body statements, field declarations,
 * and the expressions whose getter calls are renamed.
 */
module RecordTree {
  import opened Text

  const LombokValue := "lombok.Value"
  const LombokBuilder := "lombok.Builder"

  /** An annotation by its resolved type and its argument list (empty when absent). */
  datatype Annotation = Annotation(typeName: string, arguments: seq<string>)

  datatype Modifier = Public | Protected | Private | Abstract | Static | Final | OtherModifier(keyword: string)

  datatype ClassKind = Class | Enum | Interface | AnnotationKind | Record

  /** The type an expression has after attribution: a class type or any other type. */
  datatype JType = ClassType(fqn: string) | OtherType

  /** The resolved method type carried by a member reference. */
  datatype MethodType = MethodType(declaringType: string, name: string)

  /** Every expression carries its attributed type; `None` stands for an unresolved (null) type. */
  datatype Expr =
    | Ident(name: string, ty: Option<JType>)
    | Literal(text: string, ty: Option<JType>)
      /** `select.name(args)`; `select` is absent for an unqualified call. */
    | Invocation(select: Option<Expr>, name: string, args: seq<Expr>, ty: Option<JType>)
      /** `containing::reference` */
    | MemberRef(containing: Expr, reference: string, methodType: Option<MethodType>, ty: Option<JType>)

  /** One declared variable of a field declaration and its initializer, if any. */
  datatype NamedVariable = NamedVariable(name: string, initializer: Option<Expr>)

  /** A field declaration: `@A mods T a = e, b;` */
  datatype VarDecls = VarDecls(annotations: seq<Annotation>, modifiers: seq<Modifier>,
                               typeName: string, variables: seq<NamedVariable>)

  /** A resolved interface type, with its methods' names and its super-interfaces. */
  datatype InterfaceType = InterfaceType(fqn: string, methodNames: seq<string>, superInterfaces: seq<InterfaceType>)

  /** An entry of an `implements` clause: resolved to a fully qualified type, or not. */
  datatype Implemented = FullyQualified(t: InterfaceType) | Unresolved

  datatype Statement =
    | Field(decl: VarDecls)
    | NestedClass(cd: ClassDecl)
      /**
       * A method or initializer block, reduced to the expressions it
       * evaluates, in order: the part of its code a getter rename can reach.
       */
    | Code(exprs: seq<Expr>)
      /** Any other member or statement. */
    | OtherStatement(text: string)

  datatype ClassDecl = ClassDecl(
    annotations: seq<Annotation>,
    modifiers: seq<Modifier>,
    kind: ClassKind,
    simpleName: string,
    fqn: Option<string>,
    typeParameters: seq<string>,
    implements: seq<Implemented>,
    primaryConstructor: seq<VarDecls>,
    body: seq<Statement>)

  /** findAllClassFields: the field declarations of a body, in order. */
  function FindAllClassFields(body: seq<Statement>): seq<VarDecls>
  {
    if body == [] then []
    else
      var rest := FindAllClassFields(body[..|body| - 1]);
      match body[|body| - 1]
      case Field(d) => rest + [d]
      case _ => rest
  }

  /** The result holds exactly the field declarations of the body and is no longer than it. */
  lemma {:induction false} FindAllClassFieldsSpec(body: seq<Statement>)
    ensures forall d :: d in FindAllClassFields(body) <==> Field(d) in body
    ensures |FindAllClassFields(body)| <= |body|
  {
    if body != [] {
      FindAllClassFieldsSpec(body[..|body| - 1]);
      assert body == body[..|body| - 1] + [body[|body| - 1]];
    }
  }

  /** One more statement adds its declaration at the end when it is a field, and nothing otherwise. */
  lemma FindAllClassFieldsSnoc(body: seq<Statement>, s: Statement)
    ensures FindAllClassFields(body + [s]) == FindAllClassFields(body) + (if s.Field? then [s.decl] else [])
  {
    assert (body + [s])[..|body + [s]| - 1] == body;
  }

  /** The fields of a body are those of its parts, in order: a stream filter keeps order. */
  lemma {:induction false} FindAllClassFieldsAppend(a: seq<Statement>, b: seq<Statement>)
    ensures FindAllClassFields(a + b) == FindAllClassFields(a) + FindAllClassFields(b)
    decreases |b|
  {
    if b == [] {
      assert a + b == a;
    } else {
      var init, x := b[..|b| - 1], b[|b| - 1];
      FindAllClassFieldsAppend(a, init);
      assert a + b == (a + init) + [x] && b == init + [x];
      FindAllClassFieldsSnoc(a + init, x);
      FindAllClassFieldsSnoc(init, x);
    }
  }

  /** The names of all variables the declarations introduce, in order, repeats kept. */
  function AllVariableNames(fields: seq<VarDecls>): seq<string>
  {
    if fields == [] then []
    else AllVariableNames(fields[..|fields| - 1]) + VariableNames(fields[|fields| - 1].variables)
  }

  function VariableNames(vs: seq<NamedVariable>): (r: seq<string>)
    ensures |r| == |vs| && forall i :: 0 <= i < |vs| ==> r[i] == vs[i].name
  {
    if vs == [] then [] else [vs[0].name] + VariableNames(vs[1..])
  }

  /** Field lists whose declarations name the same variables, position by position, declare the same names. */
  lemma {:induction false} AllVariableNamesCongruent(a: seq<VarDecls>, b: seq<VarDecls>)
    requires |a| == |b| && forall i :: 0 <= i < |a| ==> VariableNames(a[i].variables) == VariableNames(b[i].variables)
    ensures AllVariableNames(a) == AllVariableNames(b)
  {
    if a != [] {
      AllVariableNamesCongruent(a[..|a| - 1], b[..|b| - 1]);
    }
  }

  /**
   * getMemberVariableNames: the declared names, in declaration order, each
   * once (a LinkedHashSet).
   */
  function GetMemberVariableNames(fields: seq<VarDecls>): seq<string>
  {
    Dedup(AllVariableNames(fields))
  }

  lemma MemberVariableNamesSpec(fields: seq<VarDecls>)
    ensures NoDuplicates(GetMemberVariableNames(fields))
    ensures forall x :: x in GetMemberVariableNames(fields) <==> x in AllVariableNames(fields)
    ensures forall i, j :: 0 <= i < j < |GetMemberVariableNames(fields)| ==>
              IndexOf(AllVariableNames(fields), GetMemberVariableNames(fields)[i]) <
              IndexOf(AllVariableNames(fields), GetMemberVariableNames(fields)[j])
  {
    DedupSpec(AllVariableNames(fields));
  }
}
