/**
 * Removing `@Id` from embeddable identifiers. A JPA entity whose key is a
 * field annotated `@EmbeddedId` must not have `@Id` inside the key's class.
 * The recipe scans every class for the types of `@EmbeddedId` fields, then
 * strips `@Id` from every field of each such type that is `@Embeddable`,
 * including the fields of the classes nested in it.
 */
module EmbeddableId {
  const IdType := "javax.persistence.Id"
  const EmbeddedIdType := "javax.persistence.EmbeddedId"
  const EmbeddableType := "javax.persistence.Embeddable"
  const EntityType := "javax.persistence.Entity"

  /** A field with its annotation types and its declared type's fully qualified name. */
  datatype Field = Field(annotations: seq<string>, ty: string, name: string)

  datatype Member = FieldMember(field: Field) | NestedClass(decl: ClassDecl)

  /** The members of a class body, in source order. */
  datatype Members = Nil | Cons(head: Member, tail: Members)

  /** A class, nested ones included, under its fully qualified name (`Outer.Inner`). */
  datatype ClassDecl = ClassDecl(fqn: string, annotations: seq<string>, body: Members)

  /** `anns` with every occurrence of `a` removed, the rest in order. */
  function Without(anns: seq<string>, a: string): (r: seq<string>)
    ensures forall x :: x in r <==> x in anns && x != a
    ensures a !in anns ==> r == anns
  {
    if anns == [] then []
    else if anns[0] == a then Without(anns[1..], a)
    else [anns[0]] + Without(anns[1..], a)
  }

  function WithoutId(f: Field): Field
  {
    f.(annotations := Without(f.annotations, IdType))
  }

  // Phase one: the scan.

  /** The types of the `@EmbeddedId` fields of `c` and of the classes nested in it. */
  function ClassEmbeddedIds(c: ClassDecl): set<string>
    decreases c
  {
    MembersEmbeddedIds(c.body)
  }

  function MembersEmbeddedIds(ms: Members): set<string>
    decreases ms
  {
    if ms.Nil? then {}
    else
      var here := match ms.head
        case FieldMember(f) => if EmbeddedIdType in f.annotations then {f.ty} else {}
        case NestedClass(d) => ClassEmbeddedIds(d);
      here + MembersEmbeddedIds(ms.tail)
  }

  function EmbeddedIdTypes(units: seq<ClassDecl>): set<string>
    decreases units
  {
    if units == [] then {} else ClassEmbeddedIds(units[0]) + EmbeddedIdTypes(units[1..])
  }

  // Phase two: the strip.

  /** `c` is `@Embeddable` and the type of some `@EmbeddedId` field. */
  predicate Targeted(c: ClassDecl, ids: set<string>)
  {
    EmbeddableType in c.annotations && c.fqn in ids
  }

  /**
   * Strip `@Id` from the fields of `c` when `c` or a class enclosing it is
   * targeted (`covered` says an enclosing one is), and look for targeted
   * classes further in.
   */
  function StripClass(c: ClassDecl, ids: set<string>, covered: bool): ClassDecl
    decreases c
  {
    c.(body := StripMembers(c.body, ids, covered || Targeted(c, ids)))
  }

  function StripMembers(ms: Members, ids: set<string>, covered: bool): Members
    decreases ms
  {
    if ms.Nil? then Nil
    else
      var head := match ms.head
        case FieldMember(f) => FieldMember(if covered then WithoutId(f) else f)
        case NestedClass(d) => NestedClass(StripClass(d, ids, covered));
      Cons(head, StripMembers(ms.tail, ids, covered))
  }

  function StripUnits(units: seq<ClassDecl>, ids: set<string>): (r: seq<ClassDecl>)
    ensures |r| == |units|
  {
    seq(|units|, i requires 0 <= i < |units| => StripClass(units[i], ids, false))
  }

  /** The recipe: scan all the sources, then strip. */
  function RemoveEmbeddableId(units: seq<ClassDecl>): seq<ClassDecl>
  {
    StripUnits(units, EmbeddedIdTypes(units))
  }

  /** `c` with every `@Id` gone, at every depth. */
  function Erase(c: ClassDecl): ClassDecl
  {
    StripClass(c, {}, true)
  }

  // What the strip keeps.

  /**
   * Stripping removes `@Id` annotations and nothing else: every class keeps
   * its name, annotations and members, every field its name, type and other
   * annotations, in order.
   */
  lemma {:induction false} StripKeepsShape(c: ClassDecl, ids: set<string>, covered: bool)
    ensures Erase(StripClass(c, ids, covered)) == Erase(c)
    ensures StripClass(c, ids, covered).fqn == c.fqn && StripClass(c, ids, covered).annotations == c.annotations
    decreases c
  {
    StripMembersKeepShape(c.body, ids, covered || Targeted(c, ids));
  }

  lemma {:induction false} StripMembersKeepShape(ms: Members, ids: set<string>, covered: bool)
    ensures StripMembers(StripMembers(ms, ids, covered), {}, true) == StripMembers(ms, {}, true)
    decreases ms
  {
    if ms.Cons? {
      StripMembersKeepShape(ms.tail, ids, covered);
      match ms.head
      case FieldMember(f) =>
        assert WithoutId(WithoutId(f)) == WithoutId(f);
      case NestedClass(d) =>
        StripKeepsShape(d, ids, covered);
    }
  }

  /** Neither `c` nor any class nested in it is targeted. */
  predicate NoTargets(c: ClassDecl, ids: set<string>)
    decreases c
  {
    !Targeted(c, ids) && MembersNoTargets(c.body, ids)
  }

  predicate MembersNoTargets(ms: Members, ids: set<string>)
    decreases ms
  {
    if ms.Nil? then true
    else
      (match ms.head case FieldMember(_) => true case NestedClass(d) => NoTargets(d, ids))
      && MembersNoTargets(ms.tail, ids)
  }

  /** A class with nothing targeted in it, and nothing targeted around it, is left as it is. */
  lemma {:induction false} UntargetedUnchanged(c: ClassDecl, ids: set<string>)
    requires NoTargets(c, ids)
    ensures StripClass(c, ids, false) == c
    decreases c
  {
    UntargetedMembersUnchanged(c.body, ids);
  }

  lemma {:induction false} UntargetedMembersUnchanged(ms: Members, ids: set<string>)
    requires MembersNoTargets(ms, ids)
    ensures StripMembers(ms, ids, false) == ms
    decreases ms
  {
    if ms.Cons? {
      UntargetedMembersUnchanged(ms.tail, ids);
      match ms.head
      case FieldMember(f) =>
      case NestedClass(d) =>
        UntargetedUnchanged(d, ids);
    }
  }

  /** No field of `c`, at any depth, carries `@Id`. */
  predicate IdFree(c: ClassDecl)
    decreases c
  {
    MembersIdFree(c.body)
  }

  predicate MembersIdFree(ms: Members)
    decreases ms
  {
    if ms.Nil? then true
    else
      (match ms.head case FieldMember(f) => IdType !in f.annotations case NestedClass(d) => IdFree(d))
      && MembersIdFree(ms.tail)
  }

  /** A class without any `@Id` is left as it is, wherever it is. */
  lemma {:induction false} IdFreeUnchanged(c: ClassDecl, ids: set<string>, covered: bool)
    requires IdFree(c)
    ensures StripClass(c, ids, covered) == c
    decreases c
  {
    IdFreeMembersUnchanged(c.body, ids, covered || Targeted(c, ids));
  }

  lemma {:induction false} IdFreeMembersUnchanged(ms: Members, ids: set<string>, covered: bool)
    requires MembersIdFree(ms)
    ensures StripMembers(ms, ids, covered) == ms
    decreases ms
  {
    if ms.Cons? {
      IdFreeMembersUnchanged(ms.tail, ids, covered);
      match ms.head
      case FieldMember(f) =>
      case NestedClass(d) =>
        IdFreeUnchanged(d, ids, covered);
    }
  }

  /** Inside a targeted class nothing keeps `@Id`. */
  lemma {:induction false} CoveredIdFree(c: ClassDecl, ids: set<string>)
    ensures IdFree(StripClass(c, ids, true))
    decreases c
  {
    CoveredMembersIdFree(c.body, ids);
  }

  lemma {:induction false} CoveredMembersIdFree(ms: Members, ids: set<string>)
    ensures MembersIdFree(StripMembers(ms, ids, true))
    decreases ms
  {
    if ms.Cons? {
      CoveredMembersIdFree(ms.tail, ids);
      match ms.head
      case FieldMember(f) =>
      case NestedClass(d) =>
        CoveredIdFree(d, ids);
    }
  }

  // Field by field.

  /** The fields of `c` at every depth, in source order, each with whether a targeted class encloses it. */
  function CoveredFields(c: ClassDecl, ids: set<string>, covered: bool): seq<(Field, bool)>
    decreases c
  {
    MembersCoveredFields(c.body, ids, covered || Targeted(c, ids))
  }

  function MembersCoveredFields(ms: Members, ids: set<string>, covered: bool): seq<(Field, bool)>
    decreases ms
  {
    if ms.Nil? then []
    else
      var here := match ms.head
        case FieldMember(f) => [(f, covered)]
        case NestedClass(d) => CoveredFields(d, ids, covered);
      here + MembersCoveredFields(ms.tail, ids, covered)
  }

  /** The fields of `c` at every depth, in source order. */
  function Fields(c: ClassDecl): seq<Field>
    decreases c
  {
    MembersFields(c.body)
  }

  function MembersFields(ms: Members): seq<Field>
    decreases ms
  {
    if ms.Nil? then []
    else
      var here := match ms.head case FieldMember(f) => [f] case NestedClass(d) => Fields(d);
      here + MembersFields(ms.tail)
  }

  /** What the strip should do to each field: drop `@Id` exactly from the covered ones. */
  function Expected(xs: seq<(Field, bool)>): (r: seq<Field>)
    ensures |r| == |xs|
    ensures forall k :: 0 <= k < |xs| ==> r[k] == if xs[k].1 then WithoutId(xs[k].0) else xs[k].0
  {
    seq(|xs|, k requires 0 <= k < |xs| => if xs[k].1 then WithoutId(xs[k].0) else xs[k].0)
  }

  lemma ExpectedAppend(a: seq<(Field, bool)>, b: seq<(Field, bool)>)
    ensures Expected(a + b) == Expected(a) + Expected(b)
  {
  }

  /**
   * The k-th field of the result is the k-th field of the input, with `@Id`
   * removed exactly when the field lies in a targeted class.
   */
  lemma {:induction false} StripFields(c: ClassDecl, ids: set<string>, covered: bool)
    ensures Fields(StripClass(c, ids, covered)) == Expected(CoveredFields(c, ids, covered))
    decreases c
  {
    StripMembersFields(c.body, ids, covered || Targeted(c, ids));
  }

  lemma {:induction false} StripMembersFields(ms: Members, ids: set<string>, covered: bool)
    ensures MembersFields(StripMembers(ms, ids, covered)) == Expected(MembersCoveredFields(ms, ids, covered))
    decreases ms
  {
    if ms.Cons? {
      StripMembersFields(ms.tail, ids, covered);
      var here := match ms.head
        case FieldMember(f) => [(f, covered)]
        case NestedClass(d) => CoveredFields(d, ids, covered);
      ExpectedAppend(here, MembersCoveredFields(ms.tail, ids, covered));
      match ms.head
      case FieldMember(f) =>
      case NestedClass(d) =>
        StripFields(d, ids, covered);
    }
  }

  // The scan sees the same after the strip, so the recipe is idempotent.

  /** Stripping never touches `@EmbeddedId`: the scan finds the same types before and after. */
  lemma {:induction false} StripKeepsEmbeddedIds(c: ClassDecl, ids: set<string>, covered: bool)
    ensures ClassEmbeddedIds(StripClass(c, ids, covered)) == ClassEmbeddedIds(c)
    decreases c
  {
    StripMembersKeepEmbeddedIds(c.body, ids, covered || Targeted(c, ids));
  }

  lemma {:induction false} StripMembersKeepEmbeddedIds(ms: Members, ids: set<string>, covered: bool)
    ensures MembersEmbeddedIds(StripMembers(ms, ids, covered)) == MembersEmbeddedIds(ms)
    decreases ms
  {
    if ms.Cons? {
      StripMembersKeepEmbeddedIds(ms.tail, ids, covered);
      match ms.head
      case FieldMember(f) =>
        assert EmbeddedIdType in WithoutId(f).annotations <==> EmbeddedIdType in f.annotations;
      case NestedClass(d) =>
        StripKeepsEmbeddedIds(d, ids, covered);
    }
  }

  lemma {:induction false} StripUnitsKeepEmbeddedIds(units: seq<ClassDecl>, ids: set<string>)
    ensures EmbeddedIdTypes(StripUnits(units, ids)) == EmbeddedIdTypes(units)
    decreases units
  {
    if units != [] {
      StripKeepsEmbeddedIds(units[0], ids, false);
      StripUnitsKeepEmbeddedIds(units[1..], ids);
      assert StripUnits(units, ids)[1..] == StripUnits(units[1..], ids);
    }
  }

  /** Stripping twice with the same types strips nothing more. */
  lemma {:induction false} StripTwice(c: ClassDecl, ids: set<string>, covered: bool)
    ensures StripClass(StripClass(c, ids, covered), ids, covered) == StripClass(c, ids, covered)
    decreases c
  {
    StripKeepsShape(c, ids, covered);
    StripMembersTwice(c.body, ids, covered || Targeted(c, ids));
  }

  lemma {:induction false} StripMembersTwice(ms: Members, ids: set<string>, covered: bool)
    ensures StripMembers(StripMembers(ms, ids, covered), ids, covered) == StripMembers(ms, ids, covered)
    decreases ms
  {
    if ms.Cons? {
      StripMembersTwice(ms.tail, ids, covered);
      match ms.head
      case FieldMember(f) =>
        assert WithoutId(WithoutId(f)) == WithoutId(f);
      case NestedClass(d) =>
        StripTwice(d, ids, covered);
    }
  }

  /** Running the recipe on its own output changes nothing. */
  lemma RemoveEmbeddableIdIdempotent(units: seq<ClassDecl>)
    ensures RemoveEmbeddableId(RemoveEmbeddableId(units)) == RemoveEmbeddableId(units)
  {
    var ids := EmbeddedIdTypes(units);
    StripUnitsKeepEmbeddedIds(units, ids);
    forall i | 0 <= i < |units| {
      StripTwice(units[i], ids, false);
    }
  }

  /**
   * The recipe on every class: field for field, `@Id` goes exactly where an
   * enclosing class (the field's own included) is `@Embeddable` and the type
   * of an `@EmbeddedId` field somewhere in the sources; nothing else changes.
   */
  lemma RemoveEmbeddableIdSpec(units: seq<ClassDecl>, i: nat)
    requires i < |units|
    ensures var r := RemoveEmbeddableId(units);
            && |r| == |units|
            && Fields(r[i]) == Expected(CoveredFields(units[i], EmbeddedIdTypes(units), false))
            && Erase(r[i]) == Erase(units[i])
  {
    StripFields(units[i], EmbeddedIdTypes(units), false);
    StripKeepsShape(units[i], EmbeddedIdTypes(units), false);
  }
}
