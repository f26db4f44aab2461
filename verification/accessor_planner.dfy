/**
 * Planning the renames: every method of every type is considered in
 * declaration order, and an effective accessor is scheduled for its
 * canonical name unless that would clash with something already there or
 * already scheduled. The first accessor to claim a name wins.
 */
module AccessorPlanner {
  import opened Text
  import opened AccessorModel
  import opened AccessorClassifier

  /** Rename `base`, and every method overriding it, to `newName`. */
  datatype Entry = Entry(base: MethodRef, newName: string)

  /** The overrides of the renamed methods are renamed with them: none is left out of the group. */
  predicate ChainClosed(u: seq<TypeDecl>, aff: seq<MethodRef>)
  {
    forall t, m, r :: t in u && m in t.methods && RefOf(t, m) in aff && r in m.overrides ==> r in aff
  }

  /**
   * One entry on its own is safe: it renames at most one method per type,
   * the new name is free in every type it touches, and every method it
   * renames overrides only methods it renames too.
   */
  predicate EntryOk(u: seq<TypeDecl>, e: Entry)
  {
    var aff := Affected(u, e.base);
    && (forall a, b :: a in aff && b in aff && a.owner == b.owner ==> a == b)
    && (forall a :: a in aff ==> !NameTaken(u, a.owner, e.newName))
    && ChainClosed(u, aff)
  }

  /** Two entries never rename the same method, nor give two methods of one type the same name. */
  predicate Compatible(u: seq<TypeDecl>, e1: Entry, e2: Entry)
  {
    forall a, b :: a in Affected(u, e1.base) && b in Affected(u, e2.base) ==>
      a != b && (a.owner == b.owner ==> e1.newName != e2.newName)
  }

  predicate PlanOk(u: seq<TypeDecl>, plan: seq<Entry>)
  {
    && (forall p :: 0 <= p < |plan| ==> EntryOk(u, plan[p]))
    && (forall p, q :: 0 <= p < q < |plan| ==> Compatible(u, plan[p], plan[q]))
  }

  /**
   * `m` of `t` may be renamed to `target`: the name changes, `m` overrides
   * no method (within the universe or outside it), and the entry is safe
   * alongside everything already planned.
   */
  predicate Admissible(u: seq<TypeDecl>, plan: seq<Entry>, t: TypeDecl, m: Method, target: string)
  {
    var e := Entry(RefOf(t, m), target);
    && target != m.name
    && m.overrides == []
    && EntryOk(u, e)
    && forall p :: 0 <= p < |plan| ==> Compatible(u, plan[p], e)
  }

  /** One step of the fold: consider `m` of `t`. */
  function Consider(u: seq<TypeDecl>, kind: AccessorKind, plan: seq<Entry>, t: TypeDecl, m: Method): (r: seq<Entry>)
    ensures r != plan <==> TargetName(kind, t, m).Some? && Admissible(u, plan, t, m, TargetName(kind, t, m).value)
    ensures r != plan ==> r == plan + [Entry(RefOf(t, m), TargetName(kind, t, m).value)]
  {
    match TargetName(kind, t, m)
    case Some(target) =>
      if Admissible(u, plan, t, m, target) then plan + [Entry(RefOf(t, m), target)] else plan
    case None => plan
  }

  /**
   * First wins: once an entry gives a method of type `t` the name `n`, no
   * later method of `t` aiming for `n` is admitted.
   */
  lemma FirstWins(u: seq<TypeDecl>, kind: AccessorKind, plan: seq<Entry>, t: TypeDecl, m: Method, p: nat)
    requires p < |plan| && plan[p].base.owner == t.fqn
    requires TargetName(kind, t, m) == Some(plan[p].newName)
    ensures Consider(u, kind, plan, t, m) == plan
  {
    var e := Entry(RefOf(t, m), plan[p].newName);
    assert plan[p].base in Affected(u, plan[p].base) && e.base in Affected(u, e.base);
    assert !Compatible(u, plan[p], e);
  }

  /** The first candidate to satisfy every check is scheduled. */
  lemma FirstAdmitted(u: seq<TypeDecl>, kind: AccessorKind, t: TypeDecl, m: Method, target: string)
    requires TargetName(kind, t, m) == Some(target)
    requires target != m.name && m.overrides == [] && EntryOk(u, Entry(RefOf(t, m), target))
    ensures Consider(u, kind, [], t, m) == [Entry(RefOf(t, m), target)]
  {
    assert Admissible(u, [], t, m, target);
    assert [] + [Entry(RefOf(t, m), target)] == [Entry(RefOf(t, m), target)];
  }

  function PlanMethods(u: seq<TypeDecl>, kind: AccessorKind, plan: seq<Entry>, t: TypeDecl, ms: seq<Method>): seq<Entry>
    decreases ms
  {
    if ms == [] then plan
    else PlanMethods(u, kind, Consider(u, kind, plan, t, ms[0]), t, ms[1..])
  }

  function PlanTypes(u: seq<TypeDecl>, kind: AccessorKind, plan: seq<Entry>, ts: seq<TypeDecl>): seq<Entry>
    decreases ts
  {
    if ts == [] then plan
    else PlanTypes(u, kind, PlanMethods(u, kind, plan, ts[0], ts[0].methods), ts[1..])
  }

  /** The renames the recipe of `kind` performs on the universe `u`. */
  function Plan(u: seq<TypeDecl>, kind: AccessorKind): seq<Entry>
  {
    PlanTypes(u, kind, [], u)
  }

  /** Every accessor of `kind` in the sources already carries its canonical name. */
  predicate Canonical(u: seq<TypeDecl>, kind: AccessorKind)
  {
    forall t, m :: t in u && m in t.methods && TargetName(kind, t, m).Some? ==> TargetName(kind, t, m).value == m.name
  }

  /** In canonical sources no method of `t` is admitted: each one already has its target name. */
  lemma {:induction false} PlanMethodsCanonical(u: seq<TypeDecl>, kind: AccessorKind, plan: seq<Entry>, t: TypeDecl, ms: seq<Method>)
    requires Canonical(u, kind) && t in u && forall m :: m in ms ==> m in t.methods
    ensures PlanMethods(u, kind, plan, t, ms) == plan
    decreases ms
  {
    if ms != [] {
      assert ms[0] in t.methods;
      assert Consider(u, kind, plan, t, ms[0]) == plan;
      assert forall m :: m in ms[1..] ==> m in ms;
      PlanMethodsCanonical(u, kind, plan, t, ms[1..]);
    }
  }

  lemma {:induction false} PlanTypesCanonical(u: seq<TypeDecl>, kind: AccessorKind, plan: seq<Entry>, ts: seq<TypeDecl>)
    requires Canonical(u, kind) && forall t :: t in ts ==> t in u
    ensures PlanTypes(u, kind, plan, ts) == plan
    decreases ts
  {
    if ts != [] {
      assert ts[0] in ts;
      PlanMethodsCanonical(u, kind, plan, ts[0], ts[0].methods);
      assert forall t :: t in ts[1..] ==> t in ts;
      PlanTypesCanonical(u, kind, plan, ts[1..]);
    }
  }

  /**
   * The entry names a method of the universe that is an accessor of `kind`,
   * overrides nothing, and is moved to its canonical name, which differs
   * from its current one.
   */
  predicate Justified(u: seq<TypeDecl>, kind: AccessorKind, e: Entry)
  {
    exists t, m :: t in u && m in t.methods && RefOf(t, m) == e.base &&
      TargetName(kind, t, m) == Some(e.newName) && e.newName != m.name && m.overrides == []
  }

  /**
   * A method of the renamed group overrides only methods the sources
   * declare: its overrides lie in the group, and every member of the group
   * is declared in the sources.
   */
  lemma GroupOverridesDeclared(u: seq<TypeDecl>, kind: AccessorKind, e: Entry, t: TypeDecl, m: Method, r: MethodRef)
    requires EntryOk(u, e) && Justified(u, kind, e)
    requires t in u && m in t.methods && r in m.overrides
    ensures RefOf(t, m) in Affected(u, e.base) ==> Declares(u, r)
  {
    if RefOf(t, m) in Affected(u, e.base) {
      assert r in Affected(u, e.base);
      if r == e.base {
        var t0, m0 :| t0 in u && m0 in t0.methods && RefOf(t0, m0) == e.base;
      }
    }
  }

  /** What every plan the fold builds satisfies. */
  predicate Sound(u: seq<TypeDecl>, kind: AccessorKind, plan: seq<Entry>)
  {
    PlanOk(u, plan) && forall p :: 0 <= p < |plan| ==> Justified(u, kind, plan[p])
  }

  lemma ConsiderSound(u: seq<TypeDecl>, kind: AccessorKind, plan: seq<Entry>, t: TypeDecl, m: Method)
    requires Sound(u, kind, plan) && t in u && m in t.methods
    ensures Sound(u, kind, Consider(u, kind, plan, t, m))
  {
    var r := Consider(u, kind, plan, t, m);
    if r != plan {
      var e := Entry(RefOf(t, m), TargetName(kind, t, m).value);
      assert r == plan + [e];
      assert Justified(u, kind, e);
      forall p, q | 0 <= p < q < |r|
        ensures Compatible(u, r[p], r[q])
      {
        if q == |plan| {
          assert r[q] == e && r[p] == plan[p];
        } else {
          assert r[p] == plan[p] && r[q] == plan[q];
        }
      }
    }
  }

  lemma {:induction false} PlanMethodsSound(u: seq<TypeDecl>, kind: AccessorKind, plan: seq<Entry>, t: TypeDecl, ms: seq<Method>)
    requires Sound(u, kind, plan) && t in u && forall m :: m in ms ==> m in t.methods
    ensures Sound(u, kind, PlanMethods(u, kind, plan, t, ms))
    ensures plan <= PlanMethods(u, kind, plan, t, ms)
    decreases ms
  {
    if ms != [] {
      ConsiderSound(u, kind, plan, t, ms[0]);
      PlanMethodsSound(u, kind, Consider(u, kind, plan, t, ms[0]), t, ms[1..]);
    }
  }

  lemma {:induction false} PlanTypesSound(u: seq<TypeDecl>, kind: AccessorKind, plan: seq<Entry>, ts: seq<TypeDecl>)
    requires Sound(u, kind, plan) && forall t :: t in ts ==> t in u
    ensures Sound(u, kind, PlanTypes(u, kind, plan, ts))
    ensures plan <= PlanTypes(u, kind, plan, ts)
    decreases ts
  {
    if ts != [] {
      PlanMethodsSound(u, kind, plan, ts[0], ts[0].methods);
      PlanTypesSound(u, kind, PlanMethods(u, kind, plan, ts[0], ts[0].methods), ts[1..]);
    }
  }

  /**
   * The plan is safe (no method renamed twice, no clash with an existing or
   * another new name, override groups renamed whole) and every entry
   * renames an accessor that overrides nothing to its canonical name.
   */
  lemma PlanSound(u: seq<TypeDecl>, kind: AccessorKind)
    ensures Sound(u, kind, Plan(u, kind))
  {
    PlanTypesSound(u, kind, [], u);
  }
}
