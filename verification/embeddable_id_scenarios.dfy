/** The embedded-id recipe on the sources of its tests. */
module EmbeddableIdScenarios {
  import opened EmbeddableId

  const IdField := Field([IdType], "int", "field")
  const PlainField := Field([], "int", "field")

  /** `@Entity class MainEntity { @EmbeddedId <ty> eo; }`, or without `@EmbeddedId` when `embedded` is false. */
  function MainEntity(ty: string, embedded: bool): ClassDecl
  {
    ClassDecl("MainEntity", [EntityType],
              Cons(FieldMember(Field(if embedded then [EmbeddedIdType] else [], ty, "eo")), Nil))
  }

  function One(f: Field): Members
  {
    Cons(FieldMember(f), Nil)
  }

  lemma DistinctAnnotations()
    ensures IdType != EmbeddedIdType && IdType != EmbeddableType && EmbeddedIdType != EmbeddableType
    ensures EntityType != EmbeddableType
  {
    assert IdType[18] == 'I' && EmbeddedIdType[18] == 'E' && EmbeddableType[18] == 'E';
    assert EmbeddedIdType[24] == 'e' && EmbeddableType[24] == 'a';
    assert EntityType[19] == 'n' && EmbeddableType[19] == 'm';
  }

  lemma WithoutIdOfId()
    ensures WithoutId(IdField) == PlainField
  {
    assert [IdType][1..] == [];
    assert Without([IdType], IdType) == Without([], IdType);
  }

  /** Whatever is targeted, the entity is left alone: it is not `@Embeddable` and has no `@Id`. */
  lemma MainEntityUnchanged(ty: string, embedded: bool, ids: set<string>)
    ensures StripClass(MainEntity(ty, embedded), ids, false) == MainEntity(ty, embedded)
  {
    DistinctAnnotations();
    assert !Targeted(MainEntity(ty, embedded), ids);
    assert MembersNoTargets(Nil, ids);
    UntargetedUnchanged(MainEntity(ty, embedded), ids);
  }

  lemma MainEntityIds(ty: string, embedded: bool)
    ensures ClassEmbeddedIds(MainEntity(ty, embedded)) == if embedded then {ty} else {}
  {
    assert MembersEmbeddedIds(Nil) == {};
  }

  /** No `@EmbeddedId` in a class whose only field is `@Id int field`. */
  lemma IdFieldNoEmbeddedIds(fqn: string, anns: seq<string>)
    ensures ClassEmbeddedIds(ClassDecl(fqn, anns, One(IdField))) == {}
  {
    DistinctAnnotations();
    assert MembersEmbeddedIds(Nil) == {};
  }

  lemma OuterNoEmbeddedIds(anns: seq<string>, inner: ClassDecl)
    requires ClassEmbeddedIds(inner) == {}
    ensures ClassEmbeddedIds(ClassDecl("OuterClass", anns, Cons(FieldMember(Field([IdType], "int", "test")), Cons(NestedClass(inner), Nil)))) == {}
  {
    DistinctAnnotations();
    assert MembersEmbeddedIds(Nil) == {};
    assert MembersEmbeddedIds(Cons(NestedClass(inner), Nil)) == {};
  }

  lemma StripOne(f: Field, ids: set<string>, covered: bool)
    ensures StripMembers(One(f), ids, covered) == One(if covered then WithoutId(f) else f)
  {
    assert StripMembers(Nil, ids, covered) == Nil;
  }

  /** A referenced `@Embeddable` class whose only field is `@Id int field`, or one nested in such a class, loses that `@Id`. */
  lemma StripIdField(c: ClassDecl, ids: set<string>, covered: bool)
    requires c.body == One(IdField) && (covered || Targeted(c, ids))
    ensures StripClass(c, ids, covered) == c.(body := One(PlainField))
  {
    StripOne(IdField, ids, true);
    WithoutIdOfId();
  }

  /** A body of one field followed by one nested class. */
  lemma StripFieldThenClass(f: Field, d: ClassDecl, ids: set<string>, covered: bool)
    ensures StripMembers(Cons(FieldMember(f), Cons(NestedClass(d), Nil)), ids, covered) ==
            Cons(FieldMember(if covered then WithoutId(f) else f), Cons(NestedClass(StripClass(d, ids, covered)), Nil))
  {
    assert StripMembers(Nil, ids, covered) == Nil;
  }

  lemma TwoUnits(a: ClassDecl, b: ClassDecl)
    ensures EmbeddedIdTypes([a, b]) == ClassEmbeddedIds(a) + ClassEmbeddedIds(b)
  {
    assert [a, b][1..] == [b] && [b][1..] == [];
    assert EmbeddedIdTypes([b]) == ClassEmbeddedIds(b) + EmbeddedIdTypes([]);
  }

  /** `@Id` is dropped from the field of the referenced `@Embeddable` class, which keeps the field. */
  lemma RemovesIdFromEmbeddableObject()
    ensures var embeddable := ClassDecl("EmbeddableObject", [EmbeddableType], One(IdField));
            RemoveEmbeddableId([MainEntity("EmbeddableObject", true), embeddable]) ==
            [MainEntity("EmbeddableObject", true), embeddable.(body := One(PlainField))]
  {
    var embeddable := ClassDecl("EmbeddableObject", [EmbeddableType], One(IdField));
    var units := [MainEntity("EmbeddableObject", true), embeddable];
    MainEntityIds("EmbeddableObject", true);
    TwoUnits(units[0], units[1]);
    assert EmbeddedIdTypes(units) == {"EmbeddableObject"};
    MainEntityUnchanged("EmbeddableObject", true, {"EmbeddableObject"});
    WithoutIdOfId();
    DistinctAnnotations();
    StripIdField(embeddable, {"EmbeddableObject"}, false);
    var r := RemoveEmbeddableId(units);
    assert r[0] == units[0] && r[1] == StripClass(embeddable, {"EmbeddableObject"}, false);
  }

  /** A referenced class that is not `@Embeddable` keeps its `@Id`. */
  lemma NoChangeIfNotEmbeddable()
    ensures var units := [MainEntity("EmbeddableObject", true), ClassDecl("EmbeddableObject", [], One(IdField))];
            RemoveEmbeddableId(units) == units
  {
    var units := [MainEntity("EmbeddableObject", true), ClassDecl("EmbeddableObject", [], One(IdField))];
    MainEntityUnchanged("EmbeddableObject", true, EmbeddedIdTypes(units));
    UntargetedUnchanged(units[1], EmbeddedIdTypes(units));
  }

  /** An `@Embeddable` class without `@Id` is left as it is. */
  lemma NoChangeIfNoIdAnnotation()
    ensures var units := [MainEntity("EmbeddableObject", true), ClassDecl("EmbeddableObject", [EmbeddableType], One(PlainField))];
            RemoveEmbeddableId(units) == units
  {
    var units := [MainEntity("EmbeddableObject", true), ClassDecl("EmbeddableObject", [EmbeddableType], One(PlainField))];
    MainEntityUnchanged("EmbeddableObject", true, EmbeddedIdTypes(units));
    IdFreeUnchanged(units[1], EmbeddedIdTypes(units), false);
  }

  /** An `@Embeddable` class no `@EmbeddedId` field refers to keeps its `@Id`. */
  lemma NoChangeIfNotReferencedByEmbeddedId()
    ensures var units := [MainEntity("EmbeddableObject", false), ClassDecl("EmbeddableObject", [EmbeddableType], One(IdField))];
            RemoveEmbeddableId(units) == units
  {
    var units := [MainEntity("EmbeddableObject", false), ClassDecl("EmbeddableObject", [EmbeddableType], One(IdField))];
    MainEntityIds("EmbeddableObject", false);
    TwoUnits(units[0], units[1]);
    assert EmbeddedIdTypes(units) == {};
    MainEntityUnchanged("EmbeddableObject", false, {});
    UntargetedUnchanged(units[1], {});
  }

  /**
   * Only the referenced nested class `OuterClass.EmbeddableObject` loses its
   * `@Id`; the enclosing class, which is neither `@Embeddable` nor referenced, keeps its own.
   */
  lemma RemovesIdFromInnerClassOnly()
    ensures var inner := ClassDecl("OuterClass.EmbeddableObject", [EmbeddableType], One(IdField));
            var outer := ClassDecl("OuterClass", [], Cons(FieldMember(Field([IdType], "int", "test")), Cons(NestedClass(inner), Nil)));
            RemoveEmbeddableId([MainEntity("OuterClass.EmbeddableObject", true), outer]) ==
            [MainEntity("OuterClass.EmbeddableObject", true),
             outer.(body := Cons(FieldMember(Field([IdType], "int", "test")), Cons(NestedClass(inner.(body := One(PlainField))), Nil)))]
  {
    var inner := ClassDecl("OuterClass.EmbeddableObject", [EmbeddableType], One(IdField));
    var outer := ClassDecl("OuterClass", [], Cons(FieldMember(Field([IdType], "int", "test")), Cons(NestedClass(inner), Nil)));
    var units := [MainEntity("OuterClass.EmbeddableObject", true), outer];
    var ids := {"OuterClass.EmbeddableObject"};
    MainEntityIds("OuterClass.EmbeddableObject", true);
    IdFieldNoEmbeddedIds(inner.fqn, inner.annotations);
    OuterNoEmbeddedIds([], inner);
    TwoUnits(units[0], units[1]);
    assert EmbeddedIdTypes(units) == ids;
    MainEntityUnchanged("OuterClass.EmbeddableObject", true, ids);
    WithoutIdOfId();
    DistinctAnnotations();
    assert Targeted(inner, ids) && !Targeted(outer, ids);
    StripIdField(inner, ids, false);
    StripFieldThenClass(Field([IdType], "int", "test"), inner, ids, false);
    var r := RemoveEmbeddableId(units);
    assert r[0] == units[0] && r[1] == StripClass(outer, ids, false);
  }

  /** A referenced `@Embeddable` class loses `@Id` in its own fields and in those of its nested classes. */
  lemma RemovesIdFromClassAndInnerClasses()
    ensures var inner := ClassDecl("OuterClass.NonEmbeddableObject", [], One(IdField));
            var outer := ClassDecl("OuterClass", [EmbeddableType], Cons(FieldMember(Field([IdType], "int", "test")), Cons(NestedClass(inner), Nil)));
            RemoveEmbeddableId([MainEntity("OuterClass", true), outer]) ==
            [MainEntity("OuterClass", true),
             outer.(body := Cons(FieldMember(Field([], "int", "test")), Cons(NestedClass(inner.(body := One(PlainField))), Nil)))]
  {
    var inner := ClassDecl("OuterClass.NonEmbeddableObject", [], One(IdField));
    var outer := ClassDecl("OuterClass", [EmbeddableType], Cons(FieldMember(Field([IdType], "int", "test")), Cons(NestedClass(inner), Nil)));
    var units := [MainEntity("OuterClass", true), outer];
    var ids := {"OuterClass"};
    MainEntityIds("OuterClass", true);
    IdFieldNoEmbeddedIds(inner.fqn, inner.annotations);
    OuterNoEmbeddedIds([EmbeddableType], inner);
    TwoUnits(units[0], units[1]);
    assert EmbeddedIdTypes(units) == ids;
    MainEntityUnchanged("OuterClass", true, ids);
    WithoutIdOfId();
    assert Targeted(outer, ids);
    assert Field([IdType], "int", "test").(annotations := []) == Field([], "int", "test");
    assert [IdType][1..] == [] && Without([IdType], IdType) == [];
    StripIdField(inner, ids, true);
    StripFieldThenClass(Field([IdType], "int", "test"), inner, ids, true);
    var r := RemoveEmbeddableId(units);
    assert r[0] == units[0] && r[1] == StripClass(outer, ids, false);
  }
}
