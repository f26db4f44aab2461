/**
 * The scanning phase of the `@lombok.Value` to record conversion: every
 * class declaration is visited (nested classes before the class that holds
 * them) and each class that can become a record is registered, under its
 * fully qualified name, with its member names in declaration order.
 */
module ValueRecordScanner {
  import opened Text
  import opened RecordTree
  import opened ValueRecordVisitor

  /** matchAnnotationWithNoArguments: the annotation has the given type and no arguments. */
  predicate MatchesWithNoArguments(a: Annotation, typeName: string)
  {
    a.typeName == typeName && a.arguments == []
  }

  /** At least one argument-less @Value, and nothing but argument-less @Value or @Builder. */
  predicate HasMatchingAnnotations(cd: ClassDecl)
  {
    (exists a :: a in cd.annotations && MatchesWithNoArguments(a, LombokValue)) &&
    forall a :: a in cd.annotations ==>
      MatchesWithNoArguments(a, LombokValue) || MatchesWithNoArguments(a, LombokBuilder)
  }

  predicate HasGenericTypeParameter(cd: ClassDecl)
  {
    cd.typeParameters != []
  }

  /** A class declared inside another one must be static. */
  predicate HasIncompatibleModifier(cd: ClassDecl, nested: bool)
  {
    nested && Static !in cd.modifiers
  }

  /** A non-static, unannotated field declaration. */
  predicate IsRecordCompatibleField(s: Statement)
  {
    s.Field? && Static !in s.decl.modifiers && s.decl.annotations == []
  }

  predicate IsRelevantClass(cd: ClassDecl, nested: bool)
  {
    && cd.fqn.Some?
    && cd.kind != Record
    && HasMatchingAnnotations(cd)
    && !HasGenericTypeParameter(cd)
    && (forall s :: s in cd.body ==> IsRecordCompatibleField(s))
    && !HasIncompatibleModifier(cd, nested)
  }

  /** Some declared variable has an initializer. */
  predicate HasMemberVariableAssignments(memberVariables: seq<VarDecls>)
  {
    exists d, v :: d in memberVariables && v in d.variables && v.initializer.Some?
  }

  /** The interface, or one of its super-interfaces, has a method whose fluent form is a member name. */
  predicate IsConflictingInterface(implemented: InterfaceType, memberVariableNames: seq<string>)
  {
    (exists m :: m in implemented.methodNames && FluentName(m) in memberVariableNames) ||
    (exists i :: i in implemented.superInterfaces && IsConflictingInterface(i, memberVariableNames))
  }

  predicate ImplementsConflictingInterfaces(cd: ClassDecl, memberVariableNames: seq<string>)
  {
    exists implemented :: implemented in cd.implements && implemented.FullyQualified? &&
      IsConflictingInterface(implemented.t, memberVariableNames)
  }

  /** `u` is `t` or one of its (transitive) super-interfaces. */
  ghost predicate InHierarchy(t: InterfaceType, u: InterfaceType)
  {
    u == t || exists i :: i in t.superInterfaces && InHierarchy(i, u)
  }

  /** A method name of `u` whose fluent form is a member name. */
  ghost predicate DeclaresConflictingMethod(u: InterfaceType, memberVariableNames: seq<string>)
  {
    exists m :: m in u.methodNames && FluentName(m) in memberVariableNames
  }

  /**
   * The recursive search agrees with the plain statement: some interface of
   * the whole hierarchy declares a method whose fluent form is a member.
   */
  lemma {:induction false} ConflictingInterfaceIffHierarchy(t: InterfaceType, names: seq<string>)
    ensures IsConflictingInterface(t, names) <==>
            exists u :: InHierarchy(t, u) && DeclaresConflictingMethod(u, names)
  {
    if IsConflictingInterface(t, names) {
      if DeclaresConflictingMethod(t, names) {
        assert InHierarchy(t, t);
      } else {
        var i :| i in t.superInterfaces && IsConflictingInterface(i, names);
        ConflictingInterfaceIffHierarchy(i, names);
        var u :| InHierarchy(i, u) && DeclaresConflictingMethod(u, names);
        assert InHierarchy(t, u);
      }
    }
    if exists u :: InHierarchy(t, u) && DeclaresConflictingMethod(u, names) {
      var u :| InHierarchy(t, u) && DeclaresConflictingMethod(u, names);
      if u != t {
        var i :| i in t.superInterfaces && InHierarchy(i, u);
        ConflictingInterfaceIffHierarchy(i, names);
      }
    }
  }

  /** The member names a class would be registered with. */
  function MemberNames(cd: ClassDecl): seq<string>
  {
    GetMemberVariableNames(FindAllClassFields(cd.body))
  }

  /** All the checks of the scanner's visitClassDeclaration pass. */
  predicate Registrable(cd: ClassDecl, nested: bool)
  {
    && IsRelevantClass(cd, nested)
    && !HasMemberVariableAssignments(FindAllClassFields(cd.body))
    && !ImplementsConflictingInterfaces(cd, MemberNames(cd))
  }

  /** Map.putIfAbsent: the first value stored under a key is never overwritten. */
  function WithIfAbsent(acc: map<string, seq<string>>, key: string, value: seq<string>): (r: map<string, seq<string>>)
    ensures r.Keys == acc.Keys + {key}
    ensures key in acc ==> r[key] == acc[key]
    ensures key !in acc ==> r[key] == value
    ensures forall k :: k in acc ==> r[k] == acc[k]
  {
    if key in acc then acc else acc[key := value]
  }

  function RegisterClass(acc: map<string, seq<string>>, cd: ClassDecl, nested: bool): map<string, seq<string>>
  {
    if Registrable(cd, nested) then WithIfAbsent(acc, cd.fqn.value, MemberNames(cd)) else acc
  }

  /** The scanner over one class: its body (nested classes first), then the class itself. */
  function ScanClass(acc: map<string, seq<string>>, cd: ClassDecl, nested: bool): map<string, seq<string>>
    decreases cd, 1
  {
    RegisterClass(ScanBody(acc, cd, 0), cd, nested)
  }

  function ScanBody(acc: map<string, seq<string>>, cd: ClassDecl, i: nat): map<string, seq<string>>
    requires i <= |cd.body|
    decreases cd, 0, |cd.body| - i
  {
    if i == |cd.body| then acc
    else
      assert cd.body[i] in cd.body;
      var acc' := match cd.body[i]
        case NestedClass(c) => ScanClass(acc, c, true)
        case _ => acc;
      ScanBody(acc', cd, i + 1)
  }

  /** The scanner over a compilation unit's top-level classes. */
  function ScanUnit(acc: map<string, seq<string>>, classes: seq<ClassDecl>): map<string, seq<string>>
    decreases classes
  {
    if classes == [] then acc else ScanUnit(ScanClass(acc, classes[0], false), classes[1..])
  }

  // A reference definition of the scan: list every class with its nesting flag
  // in visiting order, then fold putIfAbsent over that list.

  function AllClasses(cd: ClassDecl, nested: bool): seq<(ClassDecl, bool)>
    decreases cd, 1
  {
    AllClassesIn(cd, 0) + [(cd, nested)]
  }

  function AllClassesIn(cd: ClassDecl, i: nat): seq<(ClassDecl, bool)>
    requires i <= |cd.body|
    decreases cd, 0, |cd.body| - i
  {
    if i == |cd.body| then []
    else
      assert cd.body[i] in cd.body;
      var here := match cd.body[i]
        case NestedClass(c) => AllClasses(c, true)
        case _ => [];
      here + AllClassesIn(cd, i + 1)
  }

  function RegisterAll(acc: map<string, seq<string>>, cs: seq<(ClassDecl, bool)>): map<string, seq<string>>
    decreases cs
  {
    if cs == [] then acc else RegisterAll(RegisterClass(acc, cs[0].0, cs[0].1), cs[1..])
  }

  lemma {:induction false} RegisterAllAppend(acc: map<string, seq<string>>, a: seq<(ClassDecl, bool)>, b: seq<(ClassDecl, bool)>)
    ensures RegisterAll(acc, a + b) == RegisterAll(RegisterAll(acc, a), b)
    decreases a
  {
    if a == [] {
      assert a + b == b;
    } else {
      assert (a + b)[0] == a[0] && (a + b)[1..] == a[1..] + b;
      RegisterAllAppend(RegisterClass(acc, a[0].0, a[0].1), a[1..], b);
    }
  }

  /** The recursive scan is the putIfAbsent fold over the classes in visiting order. */
  lemma {:induction false} ScanClassIsRegisterAll(acc: map<string, seq<string>>, cd: ClassDecl, nested: bool)
    ensures ScanClass(acc, cd, nested) == RegisterAll(acc, AllClasses(cd, nested))
    decreases cd, 1
  {
    ScanBodyIsRegisterAll(acc, cd, 0);
    RegisterAllAppend(acc, AllClassesIn(cd, 0), [(cd, nested)]);
  }

  lemma {:induction false} ScanBodyIsRegisterAll(acc: map<string, seq<string>>, cd: ClassDecl, i: nat)
    requires i <= |cd.body|
    ensures ScanBody(acc, cd, i) == RegisterAll(acc, AllClassesIn(cd, i))
    decreases cd, 0, |cd.body| - i
  {
    if i < |cd.body| {
      assert cd.body[i] in cd.body;
      match cd.body[i]
      case NestedClass(c) =>
        ScanClassIsRegisterAll(acc, c, true);
        ScanBodyIsRegisterAll(ScanClass(acc, c, true), cd, i + 1);
        RegisterAllAppend(acc, AllClasses(c, true), AllClassesIn(cd, i + 1));
      case _ =>
        ScanBodyIsRegisterAll(acc, cd, i + 1);
        assert AllClassesIn(cd, i) == AllClassesIn(cd, i + 1);
    }
  }

  /** The class `c` (with its nesting flag) passes the scanner's checks and has fully qualified name `k`. */
  predicate Registers(c: (ClassDecl, bool), k: string)
  {
    Registrable(c.0, c.1) && c.0.fqn == Some(k)
  }

  /** Some entry of `cs` registers `k`. */
  predicate RegistersKey(cs: seq<(ClassDecl, bool)>, k: string)
  {
    exists j :: 0 <= j < |cs| && Registers(cs[j], k)
  }

  /** The first entry of `cs` that registers `k`. */
  function FirstRegistering(cs: seq<(ClassDecl, bool)>, k: string): (j: nat)
    requires RegistersKey(cs, k)
    ensures j < |cs| && Registers(cs[j], k)
    ensures forall j' :: 0 <= j' < j ==> !Registers(cs[j'], k)
  {
    if Registers(cs[0], k) then 0
    else
      assert RegistersKey(cs[1..], k) by {
        var j :| 0 <= j < |cs| && Registers(cs[j], k);
        assert cs[1..][j - 1] == cs[j];
      }
      var j := FirstRegistering(cs[1..], k);
      assert forall j' :: 0 < j' <= j ==> cs[j'] == cs[1..][j' - 1];
      1 + j
  }

  /**
   * The accumulated map after a fold: a key is present exactly when it was
   * before or some class registers it; a key already present keeps its value
   * (putIfAbsent); a new key holds the members of the FIRST class registering it.
   */
  lemma {:induction false} RegisterAllSpec(acc: map<string, seq<string>>, cs: seq<(ClassDecl, bool)>, k: string)
    ensures k in RegisterAll(acc, cs) <==> k in acc || RegistersKey(cs, k)
    ensures k in acc ==> RegisterAll(acc, cs)[k] == acc[k]
    ensures k !in acc && RegistersKey(cs, k) ==>
              RegisterAll(acc, cs)[k] == MemberNames(cs[FirstRegistering(cs, k)].0)
    decreases cs
  {
    if cs != [] {
      var acc' := RegisterClass(acc, cs[0].0, cs[0].1);
      RegisterAllSpec(acc', cs[1..], k);
      if RegistersKey(cs, k) && !Registers(cs[0], k) {
        var j :| 0 <= j < |cs| && Registers(cs[j], k);
        assert cs[1..][j - 1] == cs[j];
        assert RegistersKey(cs[1..], k);
      }
      if RegistersKey(cs[1..], k) {
        var j :| 0 <= j < |cs[1..]| && Registers(cs[1..][j], k);
        assert cs[1..][j] == cs[j + 1];
      }
    }
  }

  /** What one scanned class tree leaves in the map, stated on the classes it contains. */
  lemma ScanClassSpec(acc: map<string, seq<string>>, cd: ClassDecl, nested: bool, k: string)
    ensures var cs := AllClasses(cd, nested);
            && (k in ScanClass(acc, cd, nested) <==> k in acc || RegistersKey(cs, k))
            && (k in acc ==> ScanClass(acc, cd, nested)[k] == acc[k])
            && (k !in acc && RegistersKey(cs, k) ==>
                  ScanClass(acc, cd, nested)[k] == MemberNames(cs[FirstRegistering(cs, k)].0))
  {
    ScanClassIsRegisterAll(acc, cd, nested);
    RegisterAllSpec(acc, AllClasses(cd, nested), k);
  }

  /** A class the scanner registers holds only fields: as a record its body is empty. */
  lemma RegistrableBodyIsAllFields(cd: ClassDecl, nested: bool)
    requires Registrable(cd, nested)
    ensures NonFieldStatements(cd.body) == []
    ensures |FindAllClassFields(cd.body)| == |cd.body|
  {
    forall s | s in cd.body
      ensures s.Field?
    {
      assert IsRecordCompatibleField(s);
    }
    NonFieldStatementsOfOnlyFields(cd.body);
  }

  /** The shared accumulator of the scanning phase. */
  class Registry {
    var acc: map<string, seq<string>>

    constructor ()
      ensures acc == map[]
    {
      acc := map[];
    }

    method PutIfAbsent(key: string, value: seq<string>)
      modifies this
      ensures acc == WithIfAbsent(old(acc), key, value)
    {
      if key !in acc {
        acc := acc[key := value];
      }
    }

    /** The scanner's visitClassDeclaration, after visiting the class's own children. */
    method VisitClassDeclaration(cd: ClassDecl, nested: bool)
      modifies this
      ensures acc == ScanClass(old(acc), cd, nested)
      decreases cd
    {
      var i := 0;
      while i < |cd.body|
        invariant 0 <= i <= |cd.body|
        invariant ScanBody(acc, cd, i) == ScanBody(old(acc), cd, 0)
      {
        assert cd.body[i] in cd.body;
        match cd.body[i] {
          case NestedClass(c) =>
            VisitClassDeclaration(c, true);
          case _ =>
        }
        i := i + 1;
      }
      if !IsRelevantClass(cd, nested) {
        return;
      }
      var memberVariables := FindAllClassFields(cd.body);
      if HasMemberVariableAssignments(memberVariables) {
        return;
      }
      var memberVariableNames := GetMemberVariableNames(memberVariables);
      if ImplementsConflictingInterfaces(cd, memberVariableNames) {
        return;
      }
      PutIfAbsent(cd.fqn.value, memberVariableNames);
    }

    method VisitCompilationUnit(classes: seq<ClassDecl>)
      modifies this
      ensures acc == ScanUnit(old(acc), classes)
    {
      var i := 0;
      while i < |classes|
        invariant 0 <= i <= |classes|
        invariant ScanUnit(acc, classes[i..]) == ScanUnit(old(acc), classes)
      {
        assert classes[i..][0] == classes[i] && classes[i..][1..] == classes[i + 1..];
        VisitClassDeclaration(classes[i], false);
        i := i + 1;
      }
    }
  }
}
