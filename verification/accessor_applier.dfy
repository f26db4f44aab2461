/**
 * Carrying out a plan: each scheduled method is renamed where it is
 * declared, in every method overriding it, and at every call that resolves
 * to one of them, in any type of the universe. Nothing else changes.
 */
module AccessorApplier {
  import opened Text
  import opened AccessorModel
  import opened AccessorClassifier
  import opened AccessorPlanner

  /** The new name of `ref`: that of the first entry renaming it, if any. */
  function NewName(u: seq<TypeDecl>, plan: seq<Entry>, ref: MethodRef): (r: Option<string>)
    ensures r.None? <==> forall p :: 0 <= p < |plan| ==> ref !in Affected(u, plan[p].base)
  {
    if plan == [] then None
    else if ref in Affected(u, plan[0].base) then Some(plan[0].newName)
    else
      var r := NewName(u, plan[1..], ref);
      assert forall p :: 1 <= p < |plan| ==> plan[p] == plan[1..][p - 1];
      r
  }

  function RenameRef(u: seq<TypeDecl>, plan: seq<Entry>, ref: MethodRef): MethodRef
  {
    match NewName(u, plan, ref)
    case Some(n) => MethodRef(ref.owner, Signature(n, ref.sig.paramTypes))
    case None => ref
  }

  function ApplyExpr(u: seq<TypeDecl>, plan: seq<Entry>, e: Expr): Expr
  {
    match e
    case Call(receiver, target, args) =>
      var receiver' := match receiver case Some(x) => Some(ApplyExpr(u, plan, x)) case None => None;
      Call(receiver', RenameRef(u, plan, target),
           seq(|args|, i requires 0 <= i < |args| => ApplyExpr(u, plan, args[i])))
    case _ => e
  }

  function ApplyStmt(u: seq<TypeDecl>, plan: seq<Entry>, s: Stmt): Stmt
  {
    match s
    case Return(v) => Return(ApplyExpr(u, plan, v))
    case Assign(lhs, rhs) => Assign(ApplyExpr(u, plan, lhs), ApplyExpr(u, plan, rhs))
    case Eval(e) => Eval(ApplyExpr(u, plan, e))
  }

  function ApplyMethod(u: seq<TypeDecl>, plan: seq<Entry>, t: TypeDecl, m: Method): Method
  {
    m.(name := RenameRef(u, plan, RefOf(t, m)).sig.name,
       body := seq(|m.body|, i requires 0 <= i < |m.body| => ApplyStmt(u, plan, m.body[i])),
       overrides := seq(|m.overrides|, i requires 0 <= i < |m.overrides| => RenameRef(u, plan, m.overrides[i])))
  }

  function ApplyType(u: seq<TypeDecl>, plan: seq<Entry>, t: TypeDecl): TypeDecl
  {
    t.(methods := seq(|t.methods|, i requires 0 <= i < |t.methods| => ApplyMethod(u, plan, t, t.methods[i])))
  }

  function Apply(u: seq<TypeDecl>, plan: seq<Entry>): seq<TypeDecl>
  {
    seq(|u|, k requires 0 <= k < |u| => ApplyType(u, plan, u[k]))
  }

  /** The getter recipe (`kind == Getter`) or the setter recipe (`kind == Setter`) on a universe. */
  function AdoptAccessorNames(u: seq<TypeDecl>, kind: AccessorKind): seq<TypeDecl>
  {
    Apply(u, Plan(u, kind))
  }

  /**
   * A method that overrides a method the sources do not declare (a library
   * type's, such as `java.util.Date.getTime`) keeps its name, whatever
   * its body: neither recipe ever renames it.
   */
  lemma ExternalOverrideNeverRenamed(u: seq<TypeDecl>, kind: AccessorKind, t: TypeDecl, m: Method, r: MethodRef)
    requires t in u && m in t.methods && r in m.overrides && !Declares(u, r)
    ensures NewName(u, Plan(u, kind), RefOf(t, m)).None?
    ensures ApplyMethod(u, Plan(u, kind), t, m).name == m.name
  {
    var plan := Plan(u, kind);
    PlanSound(u, kind);
    forall p | 0 <= p < |plan|
      ensures RefOf(t, m) !in Affected(u, plan[p].base)
    {
      GroupOverridesDeclared(u, kind, plan[p], t, m, r);
    }
  }

  /** Sources whose accessors already carry their canonical names plan nothing and come out unchanged. */
  lemma CanonicalIsFixedPoint(u: seq<TypeDecl>, kind: AccessorKind)
    requires Canonical(u, kind)
    ensures Plan(u, kind) == [] && AdoptAccessorNames(u, kind) == u
  {
    PlanTypesCanonical(u, kind, [], u);
    ApplyEmptyPlan(u);
  }

  /** A non-empty plan renames at least its first entry's method, so the sources change. */
  lemma PlannedRenameChanges(u: seq<TypeDecl>, kind: AccessorKind)
    requires Plan(u, kind) != []
    ensures AdoptAccessorNames(u, kind) != u
  {
    var plan := Plan(u, kind);
    PlanSound(u, kind);
    assert Justified(u, kind, plan[0]);
    var t, m :| t in u && m in t.methods && RefOf(t, m) == plan[0].base &&
      TargetName(kind, t, m) == Some(plan[0].newName) && plan[0].newName != m.name && m.overrides == [];
    assert NewName(u, plan, RefOf(t, m)) == Some(plan[0].newName);
    var k :| 0 <= k < |u| && u[k] == t;
    var i :| 0 <= i < |t.methods| && t.methods[i] == m;
    assert Apply(u, plan)[k].methods[i].name != u[k].methods[i].name;
  }

  /** Running the recipe changes nothing exactly when it plans nothing. */
  lemma FixedPointIffNothingPlanned(u: seq<TypeDecl>, kind: AccessorKind)
    ensures AdoptAccessorNames(u, kind) == u <==> Plan(u, kind) == []
  {
    if Plan(u, kind) == [] {
      ApplyEmptyPlan(u);
    } else {
      PlannedRenameChanges(u, kind);
    }
  }

  /** A declaration is renamed exactly as the calls resolving to it are. */
  lemma ApplyMethodRef(u: seq<TypeDecl>, plan: seq<Entry>, t: TypeDecl, m: Method)
    ensures RefOf(ApplyType(u, plan, t), ApplyMethod(u, plan, t, m)) == RenameRef(u, plan, RefOf(t, m))
    ensures ApplyMethod(u, plan, t, m).params == m.params && ApplyMethod(u, plan, t, m).returnType == m.returnType
    ensures NewName(u, plan, RefOf(t, m)).None? ==> ApplyMethod(u, plan, t, m).name == m.name
  {
  }

  /** A planned entry's new name is what the planned method is called afterwards. */
  lemma {:induction false} NewNameOfEntry(u: seq<TypeDecl>, plan: seq<Entry>, p: nat, ref: MethodRef)
    requires PlanOk(u, plan) && p < |plan| && ref in Affected(u, plan[p].base)
    ensures NewName(u, plan, ref) == Some(plan[p].newName)
  {
    if p > 0 {
      assert Compatible(u, plan[0], plan[p]);
      assert ref !in Affected(u, plan[0].base);
      assert PlanOk(u, plan[1..]) by {
        forall q | 0 <= q < |plan[1..]| ensures EntryOk(u, plan[1..][q]) {
          assert plan[1..][q] == plan[q + 1];
        }
        forall q, q' | 0 <= q < q' < |plan[1..]| ensures Compatible(u, plan[1..][q], plan[1..][q']) {
          assert plan[1..][q] == plan[q + 1] && plan[1..][q'] == plan[q' + 1];
        }
      }
      NewNameOfEntry(u, plan[1..], p - 1, ref);
    }
  }

  /** Two methods renamed by exactly the same entries get the same new name. */
  lemma {:induction false} NewNameCongruent(u: seq<TypeDecl>, plan: seq<Entry>, a: MethodRef, b: MethodRef)
    requires forall p :: 0 <= p < |plan| ==> (a in Affected(u, plan[p].base) <==> b in Affected(u, plan[p].base))
    ensures NewName(u, plan, a) == NewName(u, plan, b)
  {
    if plan != [] {
      assert 0 < |plan|;
      assert a in Affected(u, plan[0].base) <==> b in Affected(u, plan[0].base);
      forall p | 0 <= p < |plan[1..]|
        ensures a in Affected(u, plan[1..][p].base) <==> b in Affected(u, plan[1..][p].base)
      {
        assert plan[1..][p] == plan[p + 1];
      }
      NewNameCongruent(u, plan[1..], a, b);
    }
  }

  /** With no plan, nothing changes. */
  lemma ApplyEmptyPlan(u: seq<TypeDecl>)
    ensures Apply(u, []) == u
  {
    forall k | 0 <= k < |u|
      ensures ApplyType(u, [], u[k]) == u[k]
    {
      var t := u[k];
      forall i | 0 <= i < |t.methods|
        ensures ApplyMethod(u, [], t, t.methods[i]) == t.methods[i]
      {
        var m := t.methods[i];
        forall j | 0 <= j < |m.body|
          ensures ApplyStmt(u, [], m.body[j]) == m.body[j]
        {
          match m.body[j]
          case Return(v) => ApplyExprEmptyPlan(u, v);
          case Assign(lhs, rhs) => ApplyExprEmptyPlan(u, lhs); ApplyExprEmptyPlan(u, rhs);
          case Eval(e) => ApplyExprEmptyPlan(u, e);
        }
      }
    }
  }

  lemma {:induction false} ApplyExprEmptyPlan(u: seq<TypeDecl>, e: Expr)
    ensures ApplyExpr(u, [], e) == e
  {
    match e
    case Call(receiver, target, args) =>
      if receiver.Some? {
        ApplyExprEmptyPlan(u, receiver.value);
      }
      forall i | 0 <= i < |args|
        ensures ApplyExpr(u, [], args[i]) == args[i]
      {
        ApplyExprEmptyPlan(u, args[i]);
      }
    case _ =>
  }

  /** An expression with every call's method name blanked out. */
  function Erase(e: Expr): Expr
  {
    match e
    case Call(receiver, target, args) =>
      var receiver' := match receiver case Some(x) => Some(Erase(x)) case None => None;
      Call(receiver', MethodRef(target.owner, Signature("", target.sig.paramTypes)),
           seq(|args|, i requires 0 <= i < |args| => Erase(args[i])))
    case _ => e
  }

  /**
   * Call sites change in their method names only: receivers, arguments,
   * owners and parameter types stay as they are.
   */
  lemma {:induction false} ApplyExprOnlyRenames(u: seq<TypeDecl>, plan: seq<Entry>, e: Expr)
    ensures Erase(ApplyExpr(u, plan, e)) == Erase(e)
  {
    match e
    case Call(receiver, target, args) =>
      if receiver.Some? {
        ApplyExprOnlyRenames(u, plan, receiver.value);
      }
      forall i | 0 <= i < |args|
        ensures Erase(ApplyExpr(u, plan, args[i])) == Erase(args[i])
      {
        ApplyExprOnlyRenames(u, plan, args[i]);
      }
      assert Erase(ApplyExpr(u, plan, e)).args == Erase(e).args;
    case _ =>
  }

  /** Every call that resolved before resolves afterwards, to the same method under its new name. */
  lemma ResolutionPreserved(u: seq<TypeDecl>, plan: seq<Entry>, ref: MethodRef)
    requires Declares(u, ref)
    ensures Declares(Apply(u, plan), RenameRef(u, plan, ref))
  {
    var t, m :| t in u && m in t.methods && RefOf(t, m) == ref;
    var k :| 0 <= k < |u| && u[k] == t;
    var i :| 0 <= i < |t.methods| && t.methods[i] == m;
    var t' := Apply(u, plan)[k];
    assert t' == ApplyType(u, plan, t);
    assert t'.methods[i] == ApplyMethod(u, plan, t, m);
    ApplyMethodRef(u, plan, t, m);
  }

  /**
   * A safe plan keeps method signatures distinct within every type: a
   * renamed method takes a name no method of its type had, and no two
   * methods of one type are renamed alike.
   */
  lemma DistinctSignaturesPreserved(u: seq<TypeDecl>, plan: seq<Entry>)
    requires PlanOk(u, plan)
    requires forall t :: t in u ==> DistinctSignatures(t)
    ensures forall t :: t in Apply(u, plan) ==> DistinctSignatures(t)
  {
    forall k | 0 <= k < |u|
      ensures DistinctSignatures(Apply(u, plan)[k])
    {
      var t := u[k];
      forall i, j | 0 <= i < j < |t.methods|
        ensures SigOf(ApplyMethod(u, plan, t, t.methods[i])) != SigOf(ApplyMethod(u, plan, t, t.methods[j]))
      {
        DistinctAfterRename(u, plan, t, t.methods[i], t.methods[j]);
      }
    }
  }

  lemma DistinctAfterRename(u: seq<TypeDecl>, plan: seq<Entry>, t: TypeDecl, mi: Method, mj: Method)
    requires PlanOk(u, plan) && t in u && mi in t.methods && mj in t.methods
    requires SigOf(mi) != SigOf(mj)
    ensures SigOf(ApplyMethod(u, plan, t, mi)) != SigOf(ApplyMethod(u, plan, t, mj))
  {
    ApplyMethodRef(u, plan, t, mi);
    ApplyMethodRef(u, plan, t, mj);
    if ParamTypes(mi.params) == ParamTypes(mj.params) {
      var a, b := RefOf(t, mi), RefOf(t, mj);
      if NewName(u, plan, a).Some? {
        RenamedIsFresh(u, plan, t, mi, mj);
        if NewName(u, plan, b).Some? {
          RenamedApart(u, plan, a, b);
        }
      } else if NewName(u, plan, b).Some? {
        RenamedIsFresh(u, plan, t, mj, mi);
      }
    }
  }

  /** A renamed method's new name is not the name of any method its type had. */
  lemma RenamedIsFresh(u: seq<TypeDecl>, plan: seq<Entry>, t: TypeDecl, m: Method, other: Method)
    requires PlanOk(u, plan) && t in u && m in t.methods && other in t.methods
    requires NewName(u, plan, RefOf(t, m)).Some?
    ensures NewName(u, plan, RefOf(t, m)).value != other.name
  {
    var a := RefOf(t, m);
    var p :| 0 <= p < |plan| && a in Affected(u, plan[p].base);
    NewNameOfEntry(u, plan, p, a);
    assert EntryOk(u, plan[p]);
    assert !NameTaken(u, a.owner, plan[p].newName);
  }

  /** Two different methods of one type never receive the same new name. */
  lemma RenamedApart(u: seq<TypeDecl>, plan: seq<Entry>, a: MethodRef, b: MethodRef)
    requires PlanOk(u, plan) && a != b && a.owner == b.owner
    requires NewName(u, plan, a).Some? && NewName(u, plan, b).Some?
    ensures NewName(u, plan, a) != NewName(u, plan, b)
  {
    var p :| 0 <= p < |plan| && a in Affected(u, plan[p].base);
    var q :| 0 <= q < |plan| && b in Affected(u, plan[q].base);
    NewNameOfEntry(u, plan, p, a);
    NewNameOfEntry(u, plan, q, b);
    if p < q {
      assert Compatible(u, plan[p], plan[q]);
    } else if q < p {
      assert Compatible(u, plan[q], plan[p]);
    }
  }

  /**
   * Under a safe plan an overriding method and the method it overrides are
   * renamed by the same entries: the override group moves as a whole.
   */
  lemma SameEntries(u: seq<TypeDecl>, plan: seq<Entry>, t: TypeDecl, m: Method, r: MethodRef)
    requires PlanOk(u, plan) && WellFormedOverrides(u)
    requires t in u && m in t.methods && r in m.overrides
    ensures forall p :: 0 <= p < |plan| ==>
              (RefOf(t, m) in Affected(u, plan[p].base) <==> r in Affected(u, plan[p].base))
  {
    forall p | 0 <= p < |plan|
      ensures RefOf(t, m) in Affected(u, plan[p].base) <==> r in Affected(u, plan[p].base)
    {
      var base := plan[p].base;
      assert EntryOk(u, plan[p]);
      if r in Affected(u, base) && r != base {
        var t', m' :| t' in u && m' in t'.methods && base in m'.overrides && RefOf(t', m') == r;
        assert base in m.overrides;
      }
    }
  }

  /**
   * Under a safe plan every override still has the signature of the method
   * it overrides: declarations and their overrides are renamed together.
   */
  lemma OverridesStayConsistent(u: seq<TypeDecl>, plan: seq<Entry>)
    requires PlanOk(u, plan) && WellFormedOverrides(u)
    ensures forall t, m, r :: t in Apply(u, plan) && m in t.methods && r in m.overrides ==> r.sig == SigOf(m)
  {
    var u' := Apply(u, plan);
    forall t', m', r' | t' in u' && m' in t'.methods && r' in m'.overrides
      ensures r'.sig == SigOf(m')
    {
      var k :| 0 <= k < |u'| && u'[k] == t';
      ApplyOrigin(u, plan, k, m', r');
      var m, r :| m in u[k].methods && r in m.overrides &&
                  m' == ApplyMethod(u, plan, u[k], m) && r' == RenameRef(u, plan, r);
      OverrideConsistentAt(u, plan, u[k], m, r);
    }
  }

  /** Every method of the result, and every override it lists, comes from the original. */
  lemma ApplyOrigin(u: seq<TypeDecl>, plan: seq<Entry>, k: nat, m': Method, r': MethodRef)
    requires k < |u| && m' in Apply(u, plan)[k].methods && r' in m'.overrides
    ensures exists m, r :: m in u[k].methods && r in m.overrides &&
              m' == ApplyMethod(u, plan, u[k], m) && r' == RenameRef(u, plan, r)
  {
    var t := u[k];
    assert Apply(u, plan)[k] == ApplyType(u, plan, t);
    var i :| 0 <= i < |t.methods| && ApplyType(u, plan, t).methods[i] == m';
    var m := t.methods[i];
    assert m' == ApplyMethod(u, plan, t, m);
    var j :| 0 <= j < |m.overrides| && m'.overrides[j] == r';
    assert r' == RenameRef(u, plan, m.overrides[j]);
  }

  lemma OverrideConsistentAt(u: seq<TypeDecl>, plan: seq<Entry>, t: TypeDecl, m: Method, r: MethodRef)
    requires PlanOk(u, plan) && WellFormedOverrides(u)
    requires t in u && m in t.methods && r in m.overrides
    ensures RenameRef(u, plan, r).sig == SigOf(ApplyMethod(u, plan, t, m))
  {
    assert r.sig == SigOf(m);
    SameEntries(u, plan, t, m, r);
    NewNameCongruent(u, plan, RefOf(t, m), r);
    ApplyMethodRef(u, plan, t, m);
  }

  /** Both recipes keep signatures distinct and overrides consistent. */
  lemma RecipeIsSafe(u: seq<TypeDecl>, kind: AccessorKind)
    requires forall t :: t in u ==> DistinctSignatures(t)
    requires WellFormedOverrides(u)
    ensures forall t :: t in AdoptAccessorNames(u, kind) ==> DistinctSignatures(t)
    ensures forall t, m, r :: t in AdoptAccessorNames(u, kind) && m in t.methods && r in m.overrides ==> r.sig == SigOf(m)
  {
    PlanSound(u, kind);
    DistinctSignaturesPreserved(u, Plan(u, kind));
    OverridesStayConsistent(u, Plan(u, kind));
  }
}
