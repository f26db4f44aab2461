/**
 * The rewriting phase of the `@lombok.Value` to record conversion: classes
 * whose fully qualified name the scanning phase registered become records,
 * and `x.getFoo()` calls and `X::getFoo` references on them become `foo()`.
 * `recordTypeToMembers` is the accumulated map from the scanning phase: a
 * class's fully qualified name to its member names in declaration order.
 */
module ValueRecordVisitor {
  import opened Text
  import opened RecordTree

  const StandardGetterPrefix := "get"
  const ToStringMemberDelimiter := "\", \" +\n"

  /**
   * getterMethodNameToFluentMethodName: delete EVERY occurrence of "get"
   * (String.replace replaces all, not only the prefix), then lower-case the
   * first remaining character; "" when nothing remains.
   */
  function FluentName(methodName: string): string
  {
    var stripped := RemoveAll(methodName, StandardGetterPrefix);
    if stripped == [] then [] else [ToLower(stripped[0])] + stripped[1..]
  }

  /** The StringBuilder version: copy the stripped name into a buffer and lower-case slot 0. */
  method GetterMethodNameToFluentMethodName(methodName: string) returns (r: string)
    ensures r == FluentName(methodName)
  {
    var replaced := RemoveAll(methodName, StandardGetterPrefix);
    var fluentMethodName := new char[|replaced|](i requires 0 <= i < |replaced| => replaced[i]);
    if fluentMethodName.Length == 0 {
      return "";
    }
    var firstMemberChar := fluentMethodName[0];
    fluentMethodName[0] := ToLower(firstMemberChar);
    r := fluentMethodName[..];
    assert r == [ToLower(replaced[0])] + replaced[1..];
  }

  /** A plain getter name `get` + X, with no further "get" in X, maps to X with a lower-case head. */
  lemma {:induction false} FluentNameOfGetter(x: string)
    requires !Occurs(x, StandardGetterPrefix)
    ensures FluentName(StandardGetterPrefix + x) == LowerFirst(x)
  {
    var s := StandardGetterPrefix + x;
    assert s[..3] == StandardGetterPrefix && s[3..] == x;
    RemoveAllAbsent(x, StandardGetterPrefix);
  }

  /** A name starting with "get" always loses at least those three characters. */
  lemma FluentNameShortens(methodName: string)
    requires StartsWith(methodName, StandardGetterPrefix)
    ensures |FluentName(methodName)| + 3 <= |methodName|
    ensures FluentName(methodName) != methodName
  {
    RemoveAllShortens(methodName, StandardGetterPrefix);
  }

  /** Stripping "getTarget" deletes the leading and the inner "get" alike, leaving "Tar". */
  lemma InnerGetStripped()
    ensures RemoveAll("getTarget", StandardGetterPrefix) == "Tar"
  {
    var g := StandardGetterPrefix;
    assert "getTarget"[..3] == g && "getTarget"[3..] == "Target";
    assert "Target"[..3] != g && "Target"[1..] == "arget";
    assert "arget"[..3] != g && "arget"[1..] == "rget";
    assert "rget"[..3] != g && "rget"[1..] == "get";
    assert "get"[..3] == g && "get"[3..] == "";
    assert RemoveAll("get", g) == "";
    assert RemoveAll("rget", g) == "r";
    assert RemoveAll("arget", g) == "ar";
    assert RemoveAll("Target", g) == "Tar";
  }

  /** An inner "get" is removed too: `getTarget` becomes `tar`, not `target`. */
  lemma FluentNameRemovesInnerGet()
    ensures FluentName("getTarget") == "tar"
    ensures FluentName("getFoo") == "foo"
    ensures FluentName("get") == ""
  {
    InnerGetStripped();
    assert "get"[..3] == StandardGetterPrefix && "get"[3..] == "";
    assert RemoveAll("get", StandardGetterPrefix) == "";
    assert !OccursAt("Foo", StandardGetterPrefix, 0);
    FluentNameOfGetter("Foo");
  }

  /**
   * The rename condition shared by calls and references: the receiver's
   * class is registered, the name starts with "get" and its fluent form is
   * one of the class's members.
   */
  predicate IsRecordMemberGetter(recordTypeToMembers: map<string, seq<string>>, classFqn: string, methodName: string)
  {
    classFqn in recordTypeToMembers &&
    StartsWith(methodName, StandardGetterPrefix) &&
    FluentName(methodName) in recordTypeToMembers[classFqn]
  }

  /** isClassExpression plus the registry lookup of isMethodInvocationOnRecordTypeClassMember. */
  predicate IsMethodInvocationOnRecordTypeClassMember(recordTypeToMembers: map<string, seq<string>>, inv: Expr)
    requires inv.Invocation?
  {
    inv.select.Some? && inv.select.value.ty.Some? && inv.select.value.ty.value.ClassType? &&
    IsRecordMemberGetter(recordTypeToMembers, inv.select.value.ty.value.fqn, inv.name)
  }

  /** visitMethodInvocation on a node whose children were already visited. */
  function VisitMethodInvocation(recordTypeToMembers: map<string, seq<string>>, inv: Expr): (r: Expr)
    requires inv.Invocation?
    ensures r.Invocation? && r.select == inv.select && r.args == inv.args && r.ty == inv.ty
    ensures r != inv <==> IsMethodInvocationOnRecordTypeClassMember(recordTypeToMembers, inv)
    ensures r != inv ==> r.name == FluentName(inv.name)
  {
    if IsMethodInvocationOnRecordTypeClassMember(recordTypeToMembers, inv) then
      FluentNameShortens(inv.name);
      inv.(name := FluentName(inv.name))
    else inv
  }

  predicate IsMemberReferenceOnRecordTypeClassMember(recordTypeToMembers: map<string, seq<string>>, ref: Expr)
    requires ref.MemberRef?
  {
    ref.containing.ty.Some? && ref.containing.ty.value.ClassType? &&
    IsRecordMemberGetter(recordTypeToMembers, ref.containing.ty.value.fqn, ref.reference)
  }

  /** visitMemberReference: the reference's name and its method type's name change together. */
  function VisitMemberReference(recordTypeToMembers: map<string, seq<string>>, ref: Expr): (r: Expr)
    requires ref.MemberRef?
    ensures r.MemberRef? && r.containing == ref.containing && r.ty == ref.ty
    ensures r != ref <==> IsMemberReferenceOnRecordTypeClassMember(recordTypeToMembers, ref)
    ensures r != ref ==>
              r.reference == FluentName(ref.reference) &&
              r.methodType.Some? == ref.methodType.Some? &&
              (r.methodType.Some? ==> r.methodType.value == ref.methodType.value.(name := FluentName(ref.reference)))
  {
    if IsMemberReferenceOnRecordTypeClassMember(recordTypeToMembers, ref) then
      var newSimpleName := FluentName(ref.reference);
      FluentNameShortens(ref.reference);
      var methodType := match ref.methodType
        case Some(mt) => Some(mt.(name := newSimpleName))
        case None => None;
      ref.(reference := newSimpleName, methodType := methodType)
    else ref
  }

  /** The visitor over a whole expression: children first, then the node itself. */
  function RewriteExpr(recordTypeToMembers: map<string, seq<string>>, e: Expr): Expr
  {
    match e
    case Ident(_, _) => e
    case Literal(_, _) => e
    case Invocation(select, name, args, ty) =>
      var select' := match select
        case Some(s) => Some(RewriteExpr(recordTypeToMembers, s))
        case None => None;
      var args' := seq(|args|, i requires 0 <= i < |args| => RewriteExpr(recordTypeToMembers, args[i]));
      VisitMethodInvocation(recordTypeToMembers, Invocation(select', name, args', ty))
    case MemberRef(containing, reference, methodType, ty) =>
      VisitMemberReference(recordTypeToMembers, MemberRef(RewriteExpr(recordTypeToMembers, containing), reference, methodType, ty))
  }

  /** The expression with every method and reference name blanked: what a rename cannot change. */
  function Skeleton(e: Expr): Expr
  {
    match e
    case Ident(_, _) => e
    case Literal(_, _) => e
    case Invocation(select, _, args, ty) =>
      var select' := match select
        case Some(s) => Some(Skeleton(s))
        case None => None;
      Invocation(select', "", seq(|args|, i requires 0 <= i < |args| => Skeleton(args[i])), ty)
    case MemberRef(containing, _, methodType, ty) =>
      var methodType' := match methodType
        case Some(mt) => Some(mt.(name := ""))
        case None => None;
      MemberRef(Skeleton(containing), "", methodType', ty)
  }

  /** Rewriting changes only simple names: receivers, arguments, types and structure stay. */
  lemma {:induction false} RewriteKeepsSkeleton(recordTypeToMembers: map<string, seq<string>>, e: Expr)
    ensures Skeleton(RewriteExpr(recordTypeToMembers, e)) == Skeleton(e)
    ensures RewriteExpr(recordTypeToMembers, e).ty == e.ty
  {
    match e
    case Ident(_, _) =>
    case Literal(_, _) =>
    case Invocation(select, name, args, ty) =>
      if select.Some? {
        RewriteKeepsSkeleton(recordTypeToMembers, select.value);
      }
      forall i | 0 <= i < |args|
        ensures Skeleton(RewriteExpr(recordTypeToMembers, args[i])) == Skeleton(args[i])
      {
        RewriteKeepsSkeleton(recordTypeToMembers, args[i]);
      }
    case MemberRef(containing, reference, methodType, ty) =>
      RewriteKeepsSkeleton(recordTypeToMembers, containing);
  }

  /** With no registered record type nothing is renamed. */
  lemma {:induction false} RewriteWithoutRecordsIsIdentity(e: Expr)
    ensures RewriteExpr(map[], e) == e
  {
    match e
    case Ident(_, _) =>
    case Literal(_, _) =>
    case Invocation(select, name, args, ty) =>
      if select.Some? {
        RewriteWithoutRecordsIsIdentity(select.value);
      }
      forall i | 0 <= i < |args| ensures RewriteExpr(map[], args[i]) == args[i] {
        RewriteWithoutRecordsIsIdentity(args[i]);
      }
      assert seq(|args|, i requires 0 <= i < |args| => RewriteExpr(map[], args[i])) == args;
    case MemberRef(containing, reference, methodType, ty) =>
      RewriteWithoutRecordsIsIdentity(containing);
  }

  /** The modifier list with `static` and `final` dropped, the others kept in order. */
  function WithoutStaticAndFinal(modifiers: seq<Modifier>): (r: seq<Modifier>)
    ensures forall m :: m in r <==> m in modifiers && m != Static && m != Final
    ensures |r| <= |modifiers|
    ensures (forall m :: m in modifiers ==> m != Static && m != Final) ==> r == modifiers
  {
    if modifiers == [] then []
    else
      var rest := WithoutStaticAndFinal(modifiers[1..]);
      assert modifiers == [modifiers[0]] + modifiers[1..];
      assert modifiers[0] in modifiers;
      assert forall m :: m in modifiers[1..] ==> m in modifiers;
      if modifiers[0] == Static || modifiers[0] == Final then rest else [modifiers[0]] + rest
  }

  /** `static` or `final` alone is dropped; any other single modifier is kept. */
  lemma WithoutStaticAndFinalSingle(m: Modifier)
    ensures WithoutStaticAndFinal([m]) == if m == Static || m == Final then [] else [m]
  {
    assert [m][1..] == [];
  }

  /**
   * The filter works element by element and keeps order: the modifiers
   * kept from `a + b` are those kept from `a` followed by those kept from `b`.
   */
  lemma {:induction false} WithoutStaticAndFinalAppend(a: seq<Modifier>, b: seq<Modifier>)
    ensures WithoutStaticAndFinal(a + b) == WithoutStaticAndFinal(a) + WithoutStaticAndFinal(b)
  {
    if a == [] {
      assert a + b == b;
    } else {
      assert (a + b)[0] == a[0] && (a + b)[1..] == a[1..] + b;
      WithoutStaticAndFinalAppend(a[1..], b);
    }
  }

  /** mapToConstructorArguments: every field declaration, in order, with its modifiers emptied. */
  function MapToConstructorArguments(memberVariables: seq<VarDecls>): (r: seq<VarDecls>)
    ensures |r| == |memberVariables|
    ensures forall i :: 0 <= i < |r| ==>
              r[i].modifiers == [] && r[i].variables == memberVariables[i].variables &&
              r[i].typeName == memberVariables[i].typeName && r[i].annotations == memberVariables[i].annotations
  {
    seq(|memberVariables|, i requires 0 <= i < |memberVariables| => memberVariables[i].(modifiers := []))
  }

  /** One line of the generated toString: `"m=" + m +`. */
  function MemberLine(member: string): string
  {
    "\"" + member + "=\" + " + member + " +"
  }

  /** memberVariablesToString: the member lines joined by the fixed delimiter. */
  function MemberVariablesToString(memberVariables: seq<string>): string
  {
    Join(seq(|memberVariables|, i requires 0 <= i < |memberVariables| => MemberLine(memberVariables[i])),
         ToStringMemberDelimiter)
  }

  /** The member text splits at the delimiter between any two runs of members. */
  lemma MemberVariablesToStringAppend(a: seq<string>, b: seq<string>)
    requires a != [] && b != []
    ensures MemberVariablesToString(a + b) ==
            MemberVariablesToString(a) + ToStringMemberDelimiter + MemberVariablesToString(b)
  {
    var la := seq(|a|, i requires 0 <= i < |a| => MemberLine(a[i]));
    var lb := seq(|b|, i requires 0 <= i < |b| => MemberLine(b[i]));
    assert seq(|a + b|, i requires 0 <= i < |a + b| => MemberLine((a + b)[i])) == la + lb;
    JoinAppend(la, lb, ToStringMemberDelimiter);
  }

  /** The member text of a single member is its line, with no delimiter. */
  lemma MemberVariablesToStringSingle(member: string)
    ensures MemberVariablesToString([member]) == "\"" + member + "=\" + " + member + " +"
  {
    assert seq(1, i requires 0 <= i < 1 => MemberLine([member][i])) == [MemberLine(member)];
  }

  /** The toString method the exact-toString option adds, as source text. */
  function ExactToStringSource(simpleName: string, memberVariables: seq<string>): string
  {
    "@Override public String toString() { return \"" + simpleName + "(\" +\n" +
    MemberVariablesToString(memberVariables) + "\n\")\"; }"
  }

  /** The body statements other than field declarations, in their original order. */
  function NonFieldStatements(body: seq<Statement>): seq<Statement>
  {
    if body == [] then []
    else
      var rest := NonFieldStatements(body[..|body| - 1]);
      var last := body[|body| - 1];
      if last.Field? then rest else rest + [last]
  }

  /**
   * `removeAll` of the field declarations keeps exactly the statements that
   * are not field declarations, and what is kept plus what becomes a record
   * component accounts for the whole body.
   */
  lemma {:induction false} NonFieldStatementsSpec(body: seq<Statement>)
    ensures forall s :: s in NonFieldStatements(body) <==> s in body && !s.Field?
    ensures |NonFieldStatements(body)| + |FindAllClassFields(body)| == |body|
  {
    if body != [] {
      var init := body[..|body| - 1];
      NonFieldStatementsSpec(init);
      assert body == init + [body[|body| - 1]];
    }
  }

  /** Appending one statement keeps it exactly when it is not a field declaration. */
  lemma NonFieldStatementsSnoc(body: seq<Statement>, s: Statement)
    ensures NonFieldStatements(body + [s]) == if s.Field? then NonFieldStatements(body) else NonFieldStatements(body) + [s]
  {
    assert (body + [s])[..|body + [s]| - 1] == body;
  }

  /** A body without field declarations keeps every statement. */
  lemma {:induction false} NonFieldStatementsOfNoFields(body: seq<Statement>)
    requires forall s :: s in body ==> !s.Field?
    ensures NonFieldStatements(body) == body
  {
    if body != [] {
      assert forall s :: s in body[..|body| - 1] ==> s in body;
      NonFieldStatementsOfNoFields(body[..|body| - 1]);
      assert body == body[..|body| - 1] + [body[|body| - 1]];
    }
  }

  /** A body of field declarations only leaves nothing behind once the fields are removed. */
  lemma {:induction false} NonFieldStatementsOfOnlyFields(body: seq<Statement>)
    requires forall s :: s in body ==> s.Field?
    ensures NonFieldStatements(body) == []
    ensures |FindAllClassFields(body)| == |body|
  {
    if body != [] {
      assert forall s :: s in body[..|body| - 1] ==> s in body;
      NonFieldStatementsOfOnlyFields(body[..|body| - 1]);
      assert body[|body| - 1] in body;
    }
  }

  /**
   * `new ArrayList<>(statements)` followed by `removeAll(memberVariables)`:
   * when every field declaration of the body is among `memberVariables`,
   * what remains is exactly the other statements, in order.
   */
  method RemoveAllFields(body: seq<Statement>, memberVariables: seq<VarDecls>) returns (kept: seq<Statement>)
    requires forall d :: Field(d) in body ==> d in memberVariables
    ensures kept == NonFieldStatements(body)
  {
    kept := [];
    var i := 0;
    while i < |body|
      invariant 0 <= i <= |body|
      invariant kept == NonFieldStatements(body[..i])
    {
      var s := body[i];
      assert s in body;
      assert s.Field? ==> Field(s.decl) == s;
      NonFieldStatementsSnoc(body[..i], s);
      assert body[..i + 1] == body[..i] + [s];
      if !(s.Field? && s.decl in memberVariables) {
        kept := kept + [s];
      }
      i := i + 1;
    }
    assert body[..i] == body;
  }

  /** The class's fully qualified name is a key of the accumulated map. */
  predicate Registered(recordTypeToMembers: map<string, seq<string>>, fqn: Option<string>)
  {
    fqn.Some? && fqn.value in recordTypeToMembers
  }

  /** The generated toString, when the exact-toString option is set. */
  function ToStringStatements(useExactToString: Option<bool>, simpleName: string, memberVariables: seq<VarDecls>): seq<Statement>
  {
    if useExactToString == Some(true)
    then [OtherStatement(ExactToStringSource(simpleName, GetMemberVariableNames(memberVariables)))]
    else []
  }

  /** What visitClassDeclaration does to a class whose children were already visited. */
  function ConvertClass(recordTypeToMembers: map<string, seq<string>>, useExactToString: Option<bool>, cd: ClassDecl): ClassDecl
  {
    if !Registered(recordTypeToMembers, cd.fqn) then cd
    else
      var memberVariables := FindAllClassFields(cd.body);
      cd.(kind := Record,
          modifiers := WithoutStaticAndFinal(cd.modifiers),
          body := NonFieldStatements(cd.body) + ToStringStatements(useExactToString, cd.simpleName, memberVariables),
          primaryConstructor := MapToConstructorArguments(memberVariables))
  }

  /** A declared variable, its initializer visited. */
  function VisitNamedVariable(recordTypeToMembers: map<string, seq<string>>, v: NamedVariable): NamedVariable
  {
    match v.initializer
    case Some(e) => v.(initializer := Some(RewriteExpr(recordTypeToMembers, e)))
    case None => v
  }

  /** A field declaration, its initializers visited. */
  function VisitVarDecls(recordTypeToMembers: map<string, seq<string>>, d: VarDecls): (r: VarDecls)
    ensures r.annotations == d.annotations && r.modifiers == d.modifiers && r.typeName == d.typeName
    ensures |r.variables| == |d.variables| && forall i :: 0 <= i < |d.variables| ==> r.variables[i].name == d.variables[i].name
  {
    d.(variables := seq(|d.variables|, i requires 0 <= i < |d.variables| => VisitNamedVariable(recordTypeToMembers, d.variables[i])))
  }

  function VisitExprs(recordTypeToMembers: map<string, seq<string>>, es: seq<Expr>): seq<Expr>
  {
    seq(|es|, i requires 0 <= i < |es| => RewriteExpr(recordTypeToMembers, es[i]))
  }

  /** One body statement visited: nested classes are converted, expressions rewritten. */
  function VisitStatement(recordTypeToMembers: map<string, seq<string>>, useExactToString: Option<bool>, s: Statement): Statement
    decreases s
  {
    match s
    case Field(d) => Field(VisitVarDecls(recordTypeToMembers, d))
    case NestedClass(c) => NestedClass(VisitClass(recordTypeToMembers, useExactToString, c))
    case Code(es) => Code(VisitExprs(recordTypeToMembers, es))
    case OtherStatement(_) => s
  }

  function VisitBody(recordTypeToMembers: map<string, seq<string>>, useExactToString: Option<bool>, body: seq<Statement>): seq<Statement>
    decreases body
  {
    seq(|body|, i requires 0 <= i < |body| => VisitStatement(recordTypeToMembers, useExactToString, body[i]))
  }

  /** The whole visitor on a class: its children first (super.visitClassDeclaration), then the class itself. */
  function VisitClass(recordTypeToMembers: map<string, seq<string>>, useExactToString: Option<bool>, cd: ClassDecl): ClassDecl
    decreases cd
  {
    ConvertClass(recordTypeToMembers, useExactToString, cd.(body := VisitBody(recordTypeToMembers, useExactToString, cd.body)))
  }

  /**
   * visitClassDeclaration: visit every child of the body (a nested class
   * recursively), then, if the class is registered, drop the fields from
   * the body with `removeAll`, turn it into a record and add the toString.
   */
  method VisitClassDeclaration(recordTypeToMembers: map<string, seq<string>>, useExactToString: Option<bool>,
                               cd: ClassDecl) returns (r: ClassDecl)
    ensures r == VisitClass(recordTypeToMembers, useExactToString, cd)
    decreases cd
  {
    var statements: seq<Statement> := [];
    var i := 0;
    while i < |cd.body|
      invariant 0 <= i <= |cd.body|
      invariant |statements| == i
      invariant forall j :: 0 <= j < i ==> statements[j] == VisitStatement(recordTypeToMembers, useExactToString, cd.body[j])
    {
      assert cd.body[i] in cd.body;
      var s: Statement;
      match cd.body[i] {
        case NestedClass(c) =>
          var c' := VisitClassDeclaration(recordTypeToMembers, useExactToString, c);
          s := NestedClass(c');
        case Field(d) =>
          s := Field(VisitVarDecls(recordTypeToMembers, d));
        case Code(es) =>
          s := Code(VisitExprs(recordTypeToMembers, es));
        case OtherStatement(_) =>
          s := cd.body[i];
      }
      statements := statements + [s];
      i := i + 1;
    }
    var classDeclaration := cd.(body := statements);
    assert classDeclaration == cd.(body := VisitBody(recordTypeToMembers, useExactToString, cd.body));
    if !Registered(recordTypeToMembers, classDeclaration.fqn) {
      return classDeclaration;
    }

    var memberVariables := FindAllClassFields(classDeclaration.body);
    FindAllClassFieldsSpec(classDeclaration.body);
    var bodyStatements := RemoveAllFields(classDeclaration.body, memberVariables);

    r := classDeclaration.(kind := Record,
                           modifiers := WithoutStaticAndFinal(classDeclaration.modifiers),
                           body := bodyStatements,
                           primaryConstructor := MapToConstructorArguments(memberVariables));
    if useExactToString == Some(true) {
      var toString := ExactToStringSource(classDeclaration.simpleName, GetMemberVariableNames(memberVariables));
      r := r.(body := r.body + [OtherStatement(toString)]);
    }
  }

  // The classes of a tree in visiting order (nested ones before their
  // enclosing class), by fully qualified name and kind.

  function ClassKinds(cd: ClassDecl): seq<(Option<string>, ClassKind)>
    decreases cd
  {
    BodyKinds(cd.body) + [(cd.fqn, cd.kind)]
  }

  function BodyKinds(body: seq<Statement>): seq<(Option<string>, ClassKind)>
    decreases body
  {
    if body == [] then [] else StatementKinds(body[0]) + BodyKinds(body[1..])
  }

  function StatementKinds(s: Statement): seq<(Option<string>, ClassKind)>
    decreases s
  {
    match s
    case NestedClass(c) => ClassKinds(c)
    case _ => []
  }

  /** Each listed class that is registered has become a record; the others keep their kind. */
  function Converted(recordTypeToMembers: map<string, seq<string>>, ks: seq<(Option<string>, ClassKind)>): seq<(Option<string>, ClassKind)>
  {
    seq(|ks|, i requires 0 <= i < |ks| => (ks[i].0, if Registered(recordTypeToMembers, ks[i].0) then Record else ks[i].1))
  }

  lemma ConvertedAppend(recordTypeToMembers: map<string, seq<string>>, a: seq<(Option<string>, ClassKind)>, b: seq<(Option<string>, ClassKind)>)
    ensures Converted(recordTypeToMembers, a + b) == Converted(recordTypeToMembers, a) + Converted(recordTypeToMembers, b)
  {
  }

  lemma {:induction false} BodyKindsAppend(a: seq<Statement>, b: seq<Statement>)
    ensures BodyKinds(a + b) == BodyKinds(a) + BodyKinds(b)
  {
    if a == [] {
      assert a + b == b;
    } else {
      assert (a + b)[0] == a[0] && (a + b)[1..] == a[1..] + b;
      BodyKindsAppend(a[1..], b);
    }
  }

  /** Removing the field declarations removes no class. */
  lemma {:induction false} BodyKindsOfNonFields(body: seq<Statement>)
    ensures BodyKinds(NonFieldStatements(body)) == BodyKinds(body)
  {
    if body != [] {
      var init, x := body[..|body| - 1], body[|body| - 1];
      BodyKindsOfNonFields(init);
      assert body == init + [x];
      BodyKindsAppend(init, [x]);
      if !x.Field? {
        BodyKindsAppend(NonFieldStatements(init), [x]);
      }
    }
  }

  /**
   * Every class at any depth whose fully qualified name is registered
   * comes out a record, every other class keeps its kind, and no class is
   * added, lost or reordered.
   */
  lemma {:induction false} VisitClassKinds(recordTypeToMembers: map<string, seq<string>>, useExactToString: Option<bool>, cd: ClassDecl)
    ensures ClassKinds(VisitClass(recordTypeToMembers, useExactToString, cd)) == Converted(recordTypeToMembers, ClassKinds(cd))
    decreases cd
  {
    var m, opt := recordTypeToMembers, useExactToString;
    var visited := cd.(body := VisitBody(m, opt, cd.body));
    VisitBodyKinds(m, opt, cd.body);
    ConvertedAppend(m, BodyKinds(cd.body), [(cd.fqn, cd.kind)]);
    if Registered(m, cd.fqn) {
      var memberVariables := FindAllClassFields(visited.body);
      var toString := ToStringStatements(opt, cd.simpleName, memberVariables);
      BodyKindsAppend(NonFieldStatements(visited.body), toString);
      BodyKindsOfNonFields(visited.body);
      assert BodyKinds(toString) == [];
    }
  }

  lemma {:induction false} VisitBodyKinds(recordTypeToMembers: map<string, seq<string>>, useExactToString: Option<bool>, body: seq<Statement>)
    ensures BodyKinds(VisitBody(recordTypeToMembers, useExactToString, body)) == Converted(recordTypeToMembers, BodyKinds(body))
    decreases body
  {
    var m, opt := recordTypeToMembers, useExactToString;
    if body != [] {
      var v := VisitBody(m, opt, body);
      assert v[0] == VisitStatement(m, opt, body[0]);
      assert v[1..] == VisitBody(m, opt, body[1..]);
      VisitStatementKinds(m, opt, body[0]);
      VisitBodyKinds(m, opt, body[1..]);
      ConvertedAppend(m, StatementKinds(body[0]), BodyKinds(body[1..]));
    }
  }

  lemma {:induction false} VisitStatementKinds(recordTypeToMembers: map<string, seq<string>>, useExactToString: Option<bool>, s: Statement)
    ensures StatementKinds(VisitStatement(recordTypeToMembers, useExactToString, s)) == Converted(recordTypeToMembers, StatementKinds(s))
    decreases s
  {
    match s
    case NestedClass(c) => VisitClassKinds(recordTypeToMembers, useExactToString, c);
    case _ =>
  }

  /** With nothing registered the visitor changes nothing, at any depth. */
  lemma {:induction false} VisitClassWithoutRecordsIsIdentity(useExactToString: Option<bool>, cd: ClassDecl)
    ensures VisitClass(map[], useExactToString, cd) == cd
    decreases cd
  {
    forall i | 0 <= i < |cd.body|
      ensures VisitStatement(map[], useExactToString, cd.body[i]) == cd.body[i]
    {
      VisitStatementWithoutRecordsIsIdentity(useExactToString, cd.body[i]);
    }
    assert VisitBody(map[], useExactToString, cd.body) == cd.body;
  }

  lemma {:induction false} VisitStatementWithoutRecordsIsIdentity(useExactToString: Option<bool>, s: Statement)
    ensures VisitStatement(map[], useExactToString, s) == s
    decreases s
  {
    match s
    case Field(d) =>
      forall i | 0 <= i < |d.variables|
        ensures VisitNamedVariable(map[], d.variables[i]) == d.variables[i]
      {
        if d.variables[i].initializer.Some? {
          RewriteWithoutRecordsIsIdentity(d.variables[i].initializer.value);
        }
      }
      assert VisitVarDecls(map[], d).variables == d.variables;
    case NestedClass(c) => VisitClassWithoutRecordsIsIdentity(useExactToString, c);
    case Code(es) =>
      forall i | 0 <= i < |es| ensures RewriteExpr(map[], es[i]) == es[i] {
        RewriteWithoutRecordsIsIdentity(es[i]);
      }
      assert VisitExprs(map[], es) == es;
    case OtherStatement(_) =>
  }

  /** Visiting a body keeps its field declarations, in order, with only their initializers rewritten. */
  lemma {:induction false} FieldsOfVisitBody(recordTypeToMembers: map<string, seq<string>>, useExactToString: Option<bool>, body: seq<Statement>)
    ensures |FindAllClassFields(VisitBody(recordTypeToMembers, useExactToString, body))| == |FindAllClassFields(body)|
    ensures forall i :: 0 <= i < |FindAllClassFields(body)| ==>
              FindAllClassFields(VisitBody(recordTypeToMembers, useExactToString, body))[i] ==
              VisitVarDecls(recordTypeToMembers, FindAllClassFields(body)[i])
  {
    var m, opt := recordTypeToMembers, useExactToString;
    if body != [] {
      var init, x := body[..|body| - 1], body[|body| - 1];
      FieldsOfVisitBody(m, opt, init);
      assert body == init + [x];
      assert VisitBody(m, opt, body) == VisitBody(m, opt, init) + [VisitStatement(m, opt, x)];
      FindAllClassFieldsSnoc(init, x);
      FindAllClassFieldsSnoc(VisitBody(m, opt, init), VisitStatement(m, opt, x));
    }
  }

  /** Visiting a body and then dropping its fields equals visiting only its other statements, in order. */
  lemma {:induction false} VisitBodyNonFields(recordTypeToMembers: map<string, seq<string>>, useExactToString: Option<bool>, body: seq<Statement>)
    ensures NonFieldStatements(VisitBody(recordTypeToMembers, useExactToString, body)) ==
            VisitBody(recordTypeToMembers, useExactToString, NonFieldStatements(body))
    decreases |body|
  {
    var m, opt := recordTypeToMembers, useExactToString;
    if body != [] {
      var init, x := body[..|body| - 1], body[|body| - 1];
      VisitBodyNonFields(m, opt, init);
      assert body == init + [x];
      assert VisitBody(m, opt, body) == VisitBody(m, opt, init) + [VisitStatement(m, opt, x)];
      NonFieldStatementsSnoc(VisitBody(m, opt, init), VisitStatement(m, opt, x));
      NonFieldStatementsSnoc(init, x);
      var kept := NonFieldStatements(init);
      assert VisitBody(m, opt, kept + [x]) == VisitBody(m, opt, kept) + [VisitStatement(m, opt, x)];
    }
  }

  /**
   * A registered class becomes a record: `static` and `final` dropped, one
   * component per field declaration in declaration order with the same
   * type, annotations and variable names and no modifiers, no field left in
   * the body, every other statement kept (visited) in order, plus the
   * toString over the field names when asked for.
   */
  lemma VisitClassRecord(recordTypeToMembers: map<string, seq<string>>, useExactToString: Option<bool>, cd: ClassDecl)
    requires Registered(recordTypeToMembers, cd.fqn)
    ensures var r, fields := VisitClass(recordTypeToMembers, useExactToString, cd), FindAllClassFields(cd.body);
      && r.kind == Record
      && r.modifiers == WithoutStaticAndFinal(cd.modifiers)
      && |r.primaryConstructor| == |fields|
      && (forall i :: 0 <= i < |fields| ==>
            && r.primaryConstructor[i].modifiers == []
            && r.primaryConstructor[i].typeName == fields[i].typeName
            && r.primaryConstructor[i].annotations == fields[i].annotations
            && VariableNames(r.primaryConstructor[i].variables) == VariableNames(fields[i].variables))
      && r.body == VisitBody(recordTypeToMembers, useExactToString, NonFieldStatements(cd.body))
                   + ToStringStatements(useExactToString, cd.simpleName, fields)
      && (forall s :: s in r.body ==> !s.Field?)
      && |r.body| + |fields| == |cd.body| + (if useExactToString == Some(true) then 1 else 0)
      && r.annotations == cd.annotations && r.simpleName == cd.simpleName && r.fqn == cd.fqn
      && r.typeParameters == cd.typeParameters && r.implements == cd.implements
  {
    var m, opt := recordTypeToMembers, useExactToString;
    var vb := VisitBody(m, opt, cd.body);
    FieldsOfVisitBody(m, opt, cd.body);
    NonFieldStatementsSpec(vb);
    var fields, vfields := FindAllClassFields(cd.body), FindAllClassFields(vb);
    forall i | 0 <= i < |fields|
      ensures VariableNames(MapToConstructorArguments(vfields)[i].variables) == VariableNames(fields[i].variables)
    {
      var a, b := MapToConstructorArguments(vfields)[i].variables, fields[i].variables;
      assert |VariableNames(a)| == |VariableNames(b)|;
      assert forall k :: 0 <= k < |a| ==> VariableNames(a)[k] == VariableNames(b)[k];
    }
    VisitBodyNonFields(m, opt, cd.body);
    AllVariableNamesCongruent(vfields, fields);
  }

  /**
   * A class that is not registered keeps its kind, modifiers, annotations
   * and components; its body keeps its length, and each statement its
   * form: a field stays a field, a nested class a nested class of the same
   * name, other text as it is.
   */
  lemma VisitClassUnregistered(recordTypeToMembers: map<string, seq<string>>, useExactToString: Option<bool>, cd: ClassDecl)
    requires !Registered(recordTypeToMembers, cd.fqn)
    ensures var r := VisitClass(recordTypeToMembers, useExactToString, cd);
      && r.kind == cd.kind && r.modifiers == cd.modifiers && r.annotations == cd.annotations
      && r.primaryConstructor == cd.primaryConstructor && r.simpleName == cd.simpleName && r.fqn == cd.fqn
      && r.typeParameters == cd.typeParameters && r.implements == cd.implements
      && |r.body| == |cd.body|
      && forall i :: 0 <= i < |cd.body| ==>
           && (r.body[i].Field? <==> cd.body[i].Field?)
           && (r.body[i].NestedClass? <==> cd.body[i].NestedClass?)
           && (cd.body[i].NestedClass? ==> r.body[i].cd.fqn == cd.body[i].cd.fqn)
           && (cd.body[i].OtherStatement? ==> r.body[i] == cd.body[i])
  {
    var vb := VisitBody(recordTypeToMembers, useExactToString, cd.body);
    assert VisitClass(recordTypeToMembers, useExactToString, cd) == cd.(body := vb);
    forall i | 0 <= i < |cd.body|
      ensures && (vb[i].Field? <==> cd.body[i].Field?)
              && (vb[i].NestedClass? <==> cd.body[i].NestedClass?)
              && (cd.body[i].NestedClass? ==> vb[i].cd.fqn == cd.body[i].cd.fqn)
              && (cd.body[i].OtherStatement? ==> vb[i] == cd.body[i])
    {
      var s := cd.body[i];
      assert vb[i] == VisitStatement(recordTypeToMembers, useExactToString, s);
      if s.NestedClass? {
        assert VisitClass(recordTypeToMembers, useExactToString, s.cd).fqn == s.cd.fqn;
      }
    }
  }
}
