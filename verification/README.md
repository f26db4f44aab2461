# Lombok and JPA migration recipes, modelled in Dafny

This project models three source-to-source migrations of the OpenRewrite
`rewrite-migrate-java` recipe collection and proves properties of them.

1. **`@lombok.Value` to record** (`LombokValueToRecord`). This is a scanning recipe with two phases.
   - **Scanning.** The scanner visits every class, nested classes before the class around them. It registers each class that can become a record: it maps the class's fully qualified name to its member names, and the first registration wins.
     - A class qualifies only if every one of these holds:
       - it has a type and is not already a record;
       - it has at least one argument-less `@Value`, and every annotation is an argument-less `@Value` or `@Builder`;
       - it has no type parameters;
       - every body statement is a non-static, unannotated field;
       - if it is nested, it is `static`.
     - A qualifying class is still skipped if a field has an initialiser, or if an implemented interface, searched through its superinterfaces, declares a method whose fluent name is a member name.
   - **Rewriting.** The visitor walks the whole tree. It visits a class's body first: nested classes, field initialisers and the expressions in method bodies. Then it turns the class into a record if the class is registered, at any depth:
     - `static` and `final` are dropped from its modifiers;
     - its fields become the record's components;
     - the remaining statements are kept;
     - when `useExactToString` is set, a Lombok-style `toString` is appended.
     
     Calls `x.getFoo()` and references `X::getFoo` on registered classes become `foo`.
   - Files: `text.dfy`, `record_tree.dfy`, `value_record_scanner.dfy`, `value_record_visitor.dfy`.
2. **Adopting Lombok accessor names** (`AdoptLombokGetterMethodNames`, `AdoptLombokSetterMethodNames`). These recipes rename methods that are effectively getters or setters of a field to the names Lombok would generate.
   - **Getters.** A getter becomes `getFoo`; for a primitive `boolean` it becomes `isFoo`, or `isFoo` stays as it is. Its body must be exactly `return foo;` or `return this.foo;`, with no widening and no supertype.
   - **Setters.** A setter becomes `setFoo`. Its body must be exactly `this.foo = p;` or `foo = p;`, with the exact field type and no boxing.
   - **What is renamed.** Overriding methods in the same sources are renamed with the method they override. Calls follow the rename.
   - **What is not renamed.** No method is renamed if:
     - it overrides a method from outside;
     - the new name already exists in the class;
     - an earlier method of the class already claimed the name.
   - The program model is a universe of type declarations with resolved calls and explicit override lists. The recipe is a plan, a first-wins fold over all methods in declaration order, followed by a global apply.
   - Files: `accessor_model.dfy`, `accessor_names.dfy`, `accessor_classifier.dfy`, `accessor_planner.dfy`, `accessor_applier.dfy`, `accessor_scenarios.dfy`.
3. **Removing `@Id` from embedded ids** (`RemoveEmbeddableId`). The recipe collects the types of all `@EmbeddedId` fields. It then strips `@Id` from every field of each such type that is `@Embeddable`, and from the fields of the classes nested in it. Files: `embeddable_id.dfy`, `embeddable_id_scenarios.dfy`.

The implementations of the second and third recipes are not part of this model. Their behaviour is taken from their test suites, which give before and after source pairs. The rows below cite those tests.

Choices that differ from a literal reading:
- **Nested check.** The scanner's `hasIncompatibleModifier` asks whether the class's cursor parent is a class body. The model passes an explicit `nested` flag instead. The flag is true exactly for classes that are statements of a class body.
- **`getterMethodNameToFluentMethodName`.** This follows the code, not a "remove the `get` prefix" reading. `String.replace` deletes every occurrence of `get`, so `getTarget` becomes `tar` (`ValueRecordVisitor.FluentNameRemovesInnerGet`).
- **Second runs.** A rename can free a name that blocked another accessor. So the accessor recipes are not idempotent: a second run may rename more (`AccessorScenarios.SecondRunMayRenameMore`). Sources are fixed points exactly when nothing is planned (`AccessorApplier.FixedPointIffNothingPlanned`), which holds in particular when every accessor already has its canonical name (`AccessorApplier.CanonicalIsFixedPoint`).
- **Conflicts.** The accessor planner checks for conflicts by method name, which is stricter than by signature. The safety theorem is stated by signature.

## Model

| member | source | states |
|---|---|---|
| Text.LowerFirst | src/main/java/org/openrewrite/java/migrate/lombok/LombokValueToRecord.java:315-316 | Same length; the first character is lower-cased (ASCII) and the rest is unchanged. |
| Text.RemoveAllShortens | src/main/java/org/openrewrite/java/migrate/lombok/LombokValueToRecord.java:308-309 | Deleting every occurrence of a pattern never lengthens a string. A string that starts with the pattern loses at least the pattern's length. |
| Text.RemoveAllAbsent | src/main/java/org/openrewrite/java/migrate/lombok/LombokValueToRecord.java:308-309 | A string in which the pattern does not occur is returned unchanged. |
| Text.DedupSpec | src/main/java/org/openrewrite/java/migrate/lombok/LombokValueToRecord.java:404-411 | Collecting into a `LinkedHashSet` gives no duplicates and exactly the input's elements, in order of first occurrence. |
| Text.JoinAppend | src/main/java/org/openrewrite/java/migrate/lombok/LombokValueToRecord.java:341-346 | Joining two non-empty lists equals joining each and putting the delimiter between them. |
| RecordTree.FindAllClassFieldsSpec | src/main/java/org/openrewrite/java/migrate/lombok/LombokValueToRecord.java:397-402 | The result holds exactly the field declarations of the body and is no longer than the body. |
| RecordTree.FindAllClassFieldsSnoc | src/main/java/org/openrewrite/java/migrate/lombok/LombokValueToRecord.java:397-402 | One more statement adds its declaration at the end if it is a field, and nothing otherwise. |
| RecordTree.FindAllClassFieldsAppend | src/main/java/org/openrewrite/java/migrate/lombok/LombokValueToRecord.java:397-402 | The fields of a concatenated body are the fields of each part, in order: the filter keeps order. |
| RecordTree.AllVariableNamesCongruent | src/main/java/org/openrewrite/java/migrate/lombok/LombokValueToRecord.java:404-411 | Field lists that declare the same variable names position by position give the same collected names. |
| RecordTree.MemberVariableNamesSpec | src/main/java/org/openrewrite/java/migrate/lombok/LombokValueToRecord.java:404-411 | Member names hold no duplicates, are exactly the declared variable names, and follow first-declaration order. |
| ValueRecordVisitor.GetterMethodNameToFluentMethodName | src/main/java/org/openrewrite/java/migrate/lombok/LombokValueToRecord.java:307-319 | The StringBuilder method returns the fluent name of its input, including `""` when nothing remains. |
| ValueRecordVisitor.FluentNameOfGetter | src/main/java/org/openrewrite/java/migrate/lombok/LombokValueToRecord.java:307-319 | For `get` + x with no other `get` in x, the fluent name is x with its first letter lower-cased. |
| ValueRecordVisitor.FluentNameShortens | src/main/java/org/openrewrite/java/migrate/lombok/LombokValueToRecord.java:307-319 | A name starting with `get` loses at least three characters, so renaming always changes it. |
| ValueRecordVisitor.FluentNameRemovesInnerGet | src/main/java/org/openrewrite/java/migrate/lombok/LombokValueToRecord.java:307-319 | `getTarget` becomes `tar` (the inner `get` goes too), `getFoo` becomes `foo`, and `get` becomes `""`. |
| ValueRecordVisitor.VisitMethodInvocation | src/main/java/org/openrewrite/java/migrate/lombok/LombokValueToRecord.java:244-305 | A call changes if and only if all of these hold: its receiver has a class type registered by the scan, the name starts with `get`, and the fluent name is one of that class's members. Only the name changes, and it becomes the fluent name. |
| ValueRecordVisitor.VisitMemberReference | src/main/java/org/openrewrite/java/migrate/lombok/LombokValueToRecord.java:259-282 | A reference changes under the same condition, evaluated on its containing expression. Its name and its method type's name both become the fluent name; nothing else changes. |
| ValueRecordVisitor.RewriteKeepsSkeleton | src/main/java/org/openrewrite/java/migrate/lombok/LombokValueToRecord.java:244-282 | Rewriting a whole expression changes only simple names: receivers, arguments, types and structure are kept. |
| ValueRecordVisitor.RewriteWithoutRecordsIsIdentity | src/main/java/org/openrewrite/java/migrate/lombok/LombokValueToRecord.java:284-301 | With nothing registered, no expression changes. |
| ValueRecordVisitor.WithoutStaticAndFinal | src/main/java/org/openrewrite/java/migrate/lombok/LombokValueToRecord.java:376-382 | A modifier is kept if and only if it was present and is neither `static` nor `final`. A list without them is kept whole. |
| ValueRecordVisitor.WithoutStaticAndFinalSingle | src/main/java/org/openrewrite/java/migrate/lombok/LombokValueToRecord.java:376-382 | One modifier is dropped if it is `static` or `final`, and kept otherwise. |
| ValueRecordVisitor.WithoutStaticAndFinalAppend | src/main/java/org/openrewrite/java/migrate/lombok/LombokValueToRecord.java:376-382 | Filtering a concatenation filters each part, so the kept modifiers stay in their order. |
| ValueRecordVisitor.MapToConstructorArguments | src/main/java/org/openrewrite/java/migrate/lombok/LombokValueToRecord.java:321-330 | One component per field declaration, in order, with modifiers emptied and variables, type and annotations kept. |
| ValueRecordVisitor.MemberVariablesToStringSingle | src/main/java/org/openrewrite/java/migrate/lombok/LombokValueToRecord.java:231-232 | One member m gives the line `"m=" + m +`. |
| ValueRecordVisitor.MemberVariablesToStringAppend | src/main/java/org/openrewrite/java/migrate/lombok/LombokValueToRecord.java:341-346 | The member lines are joined by the `", " +` delimiter line. |
| ValueRecordVisitor.NonFieldStatementsSpec | src/main/java/org/openrewrite/java/migrate/lombok/LombokValueToRecord.java:368-369 | `removeAll` of the field declarations keeps exactly the non-field statements. Kept plus removed equals the body length. |
| ValueRecordVisitor.NonFieldStatementsOfNoFields | src/main/java/org/openrewrite/java/migrate/lombok/LombokValueToRecord.java:368-369 | A body without fields is kept whole. |
| ValueRecordVisitor.NonFieldStatementsOfOnlyFields | src/main/java/org/openrewrite/java/migrate/lombok/LombokValueToRecord.java:368-369 | A body of fields only is emptied, and every statement becomes a component. |
| ValueRecordVisitor.RemoveAllFields | src/main/java/org/openrewrite/java/migrate/lombok/LombokValueToRecord.java:368-369 | Copying the statements and removing every field declaration of the class leaves exactly the non-field statements, in order. |
| ValueRecordVisitor.VisitVarDecls | src/main/java/org/openrewrite/java/migrate/lombok/LombokValueToRecord.java:357-358 | Visiting a field declaration keeps its annotations, modifiers, type and variable names; only initialisers are rewritten. |
| ValueRecordVisitor.VisitClassDeclaration | src/main/java/org/openrewrite/java/migrate/lombok/LombokValueToRecord.java:357-394 | The method visits the body first, recursing into nested classes, and then converts the class. Its result equals `VisitClass`, whose meaning is stated by the lemmas below. |
| ValueRecordVisitor.VisitClassKinds | src/main/java/org/openrewrite/java/migrate/lombok/LombokValueToRecord.java:357-394 | At every depth, a class becomes a record if and only if it is registered; every other class keeps its kind, and the tree keeps its classes in order. |
| ValueRecordVisitor.VisitClassWithoutRecordsIsIdentity | src/main/java/org/openrewrite/java/migrate/lombok/LombokValueToRecord.java:360-362 | With nothing registered, the whole tree is unchanged. |
| ValueRecordVisitor.FieldsOfVisitBody | src/main/java/org/openrewrite/java/migrate/lombok/LombokValueToRecord.java:357-365 | The visited body has the same field declarations in the same order, each visited. |
| ValueRecordVisitor.VisitClassRecord | src/main/java/org/openrewrite/java/migrate/lombok/LombokValueToRecord.java:364-390 | A registered class becomes a record. Its modifiers lose `static`/`final`. It has one component per field, in order, with modifiers emptied and type, annotations and names kept. Its body is the class's non-field statements, visited, in source order, followed by the `toString` over the field names when asked for; it holds no field. Its name and type parameters are kept; its annotations are kept as well, see "Left out". |
| ValueRecordVisitor.VisitBodyNonFields | src/main/java/org/openrewrite/java/migrate/lombok/LombokValueToRecord.java:367-369 | Visiting a body and then removing the fields equals visiting only the non-field statements, in order. |
| ValueRecordVisitor.VisitClassUnregistered | src/main/java/org/openrewrite/java/migrate/lombok/LombokValueToRecord.java:357-362 | An unregistered or untyped class keeps everything but its body. Its body keeps its length, and every statement keeps its form; nested classes keep their names. |
| ValueRecordScanner.ConflictingInterfaceIffHierarchy | src/main/java/org/openrewrite/java/migrate/lombok/LombokValueToRecord.java:167-180 | An interface conflicts if and only if some interface in its superinterface hierarchy, itself included, declares a method whose fluent name is a member name. |
| ValueRecordScanner.WithIfAbsent | src/main/java/org/openrewrite/java/migrate/lombok/LombokValueToRecord.java:112-114 | `putIfAbsent`: the key is added; an existing value is kept; a new key gets the value; other keys are unchanged. |
| ValueRecordScanner.ScanClassIsRegisterAll | src/main/java/org/openrewrite/java/migrate/lombok/LombokValueToRecord.java:95-117 | The recursive visit (nested classes first) equals registering, in order, the post-order list of all classes. |
| ValueRecordScanner.RegisterAllSpec | src/main/java/org/openrewrite/java/migrate/lombok/LombokValueToRecord.java:95-117 | A key is present if and only if it was present before or some class registers it. An old value is never overwritten. A new key maps to the member names of the first class that registers it. |
| ValueRecordScanner.ScanClassSpec | src/main/java/org/openrewrite/java/migrate/lombok/LombokValueToRecord.java:95-117 | The same three facts for the visit of a class and everything nested in it. |
| ValueRecordScanner.RegistrableBodyIsAllFields | src/main/java/org/openrewrite/java/migrate/lombok/LombokValueToRecord.java:119-127 | A registered class's body is all fields, so the rewrite leaves no statement behind and every statement becomes a component. |
| ValueRecordScanner.Registry.constructor | src/main/java/org/openrewrite/java/migrate/lombok/LombokValueToRecord.java:70-73 | The accumulator starts empty. |
| ValueRecordScanner.Registry.PutIfAbsent | src/main/java/org/openrewrite/java/migrate/lombok/LombokValueToRecord.java:112-114 | The accumulator becomes `WithIfAbsent` of its old value. |
| ValueRecordScanner.Registry.VisitClassDeclaration | src/main/java/org/openrewrite/java/migrate/lombok/LombokValueToRecord.java:95-117 | After visiting a class, the accumulator is `ScanClass` of its old value: nested classes first, then the early returns in source order. |
| ValueRecordScanner.Registry.VisitCompilationUnit | src/main/java/org/openrewrite/java/migrate/lombok/LombokValueToRecord.java:76-83 | Visiting the top-level classes in order leaves `ScanUnit` of the old accumulator. |
| AccessorModel.Overriders | src/test/java/org/openrewrite/java/migrate/lombok/AdoptLombokGetterMethodNamesTest.java:231-276 | Lists exactly the methods in the sources that override a given method. |
| AccessorModel.Affected | src/test/java/org/openrewrite/java/migrate/lombok/AdoptLombokGetterMethodNamesTest.java:231-276 | The methods renamed together are exactly the base method and its overriders. |
| AccessorNames.GetterNameRoundTrip | src/test/java/org/openrewrite/java/migrate/lombok/AdoptLombokGetterMethodNamesTest.java:36-93 | Stripping the prefix and lower-casing gives back the field name, for non-boolean fields and for `boolean` fields not named `isX`. |
| AccessorNames.NoDoubleIsPrefix | src/test/java/org/openrewrite/java/migrate/lombok/AdoptLombokGetterMethodNamesTest.java:76-117 | `boolean isFoo` and `boolean foo` both get `isFoo`; `isIsFoo` is never produced. |
| AccessorNames.BoxedBooleanUsesGet | src/test/java/org/openrewrite/java/migrate/lombok/AdoptLombokGetterMethodNamesTest.java:120-162 | A `Boolean` field gets `get`: `getFoo` for `Foo`, and `getIsFoo` for `isFoo`. |
| AccessorNames.GetterNameInjective | src/test/java/org/openrewrite/java/migrate/lombok/AdoptLombokGetterMethodNamesTest.java:36-53 | Distinct conventional field names give distinct getter names, within non-boolean fields and within `boolean` fields not named `isX`. |
| AccessorNames.BooleanGetterCollision | src/test/java/org/openrewrite/java/migrate/lombok/AdoptLombokGetterMethodNamesTest.java:76-117 | `boolean foo` and `boolean isFoo` want the same getter name, so the planner must arbitrate. |
| AccessorNames.SetterNameRoundTrip | src/test/java/org/openrewrite/java/migrate/lombok/AdoptLombokSetterMethodNamesTest.java:36-57 | The setter name starts with `set`, and stripping it and lower-casing gives back the field name. |
| AccessorNames.SetterNameIgnoresType | src/test/java/org/openrewrite/java/migrate/lombok/AdoptLombokSetterMethodNamesTest.java:108-145 | The setter name does not depend on the field's type (`boolean`, `Boolean` or any other). |
| AccessorNames.SetterNameInjective | src/test/java/org/openrewrite/java/migrate/lombok/AdoptLombokSetterMethodNamesTest.java:36-57 | Distinct conventional field names give distinct setter names. |
| AccessorClassifier.EffectiveGetterFieldIff | src/test/java/org/openrewrite/java/migrate/lombok/AdoptLombokGetterMethodNamesTest.java:36-73 | A method is a getter of f if and only if: it takes no parameter; its whole body is `return f;` or `return this.f;`; and it returns exactly f's type. |
| AccessorClassifier.EffectiveSetterFieldIff | src/test/java/org/openrewrite/java/migrate/lombok/AdoptLombokSetterMethodNamesTest.java:36-81 | A method is a setter of f if and only if: it has one parameter, of exactly f's type; and its whole body is `this.f = p;` or `f = p;` with f not p. |
| AccessorClassifier.UpcastIsNotGetter | src/test/java/org/openrewrite/java/migrate/lombok/AdoptLombokGetterMethodNamesTest.java:540-551 | `long getFoo()` returning `int foo` is not a getter. |
| AccessorClassifier.SupertypeReturnIsNotGetter | src/test/java/org/openrewrite/java/migrate/lombok/AdoptLombokGetterMethodNamesTest.java:554-570 | A `BufferedReader` method returning a `LineNumberReader` field is not a getter. |
| AccessorClassifier.BothSetterForms | src/test/java/org/openrewrite/java/migrate/lombok/AdoptLombokSetterMethodNamesTest.java:36-81 | `this.foo = foo` and `foo = newfoo` are both setters of `foo`. |
| AccessorClassifier.SelfAssignmentIsNotSetter | src/test/java/org/openrewrite/java/migrate/lombok/AdoptLombokSetterMethodNamesTest.java:60-81 | The bare form needs a parameter named differently from the field: `foo = foo` is not a setter. |
| AccessorClassifier.BoxingIsNotSetter | src/test/java/org/openrewrite/java/migrate/lombok/AdoptLombokSetterMethodNamesTest.java:525-550 | A `boolean` parameter stored in a `Boolean` field, and the reverse, is not a setter. |
| AccessorPlanner.Consider | src/test/java/org/openrewrite/java/migrate/lombok/AdoptLombokGetterMethodNamesTest.java:501-534 | Considering a method appends an entry if and only if the method is an accessor whose target name is admissible. The entry renames it to that name; otherwise the plan is unchanged. On an empty plan, an accessor that overrides nothing, changes its name and clashes with nothing is scheduled (`FirstAdmitted`, used by the scenarios). |
| AccessorPlanner.GroupOverridesDeclared | src/test/java/org/openrewrite/java/migrate/lombok/AdoptLombokGetterMethodNamesTest.java:573-592 | A method renamed by a planned entry overrides only methods declared in the sources. |
| AccessorPlanner.FirstWins | src/test/java/org/openrewrite/java/migrate/lombok/AdoptLombokGetterMethodNamesTest.java:501-534 | Once a method of a type has claimed a name, no later method of that type aiming for the same name is admitted. |
| AccessorPlanner.PlanSound | src/test/java/org/openrewrite/java/migrate/lombok/AdoptLombokGetterMethodNamesTest.java:501-614 | Every entry renames an accessor that overrides nothing to its canonical, different name. No method is renamed twice. No new name clashes with an existing or another new name in any type touched. Override groups are renamed whole. |
| AccessorApplier.NewName | src/test/java/org/openrewrite/java/migrate/lombok/AdoptLombokGetterMethodNamesTest.java:165-200 | A method keeps its name if and only if no entry's group contains it. |
| AccessorApplier.ApplyMethodRef | src/test/java/org/openrewrite/java/migrate/lombok/AdoptLombokGetterMethodNamesTest.java:165-200 | A declaration is renamed exactly as calls resolving to it are. Parameters and return type are kept. |
| AccessorApplier.ApplyEmptyPlan | src/test/java/org/openrewrite/java/migrate/lombok/AdoptLombokGetterMethodNamesTest.java:540-614 | With nothing planned, the sources are unchanged. |
| AccessorApplier.ApplyExprOnlyRenames | src/test/java/org/openrewrite/java/migrate/lombok/AdoptLombokGetterMethodNamesTest.java:165-200 | Applying a plan to an expression changes only call targets' names; receivers and arguments are kept. |
| AccessorApplier.ResolutionPreserved | src/test/java/org/openrewrite/java/migrate/lombok/AdoptLombokGetterMethodNamesTest.java:165-200 | Every call that resolved before resolves after, to the renamed method. |
| AccessorApplier.DistinctSignaturesPreserved | src/test/java/org/openrewrite/java/migrate/lombok/AdoptLombokGetterMethodNamesTest.java:595-614 | A safe plan never gives two methods of one type the same signature. |
| AccessorApplier.OverridesStayConsistent | src/test/java/org/openrewrite/java/migrate/lombok/AdoptLombokGetterMethodNamesTest.java:231-276 | After a safe plan, every override still has the signature of the method it overrides. |
| AccessorApplier.ExternalOverrideNeverRenamed | src/test/java/org/openrewrite/java/migrate/lombok/AdoptLombokGetterMethodNamesTest.java:573-592 | In any sources, under either recipe, a method that overrides a method not declared there keeps its name. |
| AccessorApplier.CanonicalIsFixedPoint | src/test/java/org/openrewrite/java/migrate/lombok/AdoptLombokGetterMethodNamesTest.java:540-614 | Sources whose accessors already carry their canonical names plan nothing and come out unchanged. |
| AccessorApplier.PlannedRenameChanges | src/test/java/org/openrewrite/java/migrate/lombok/AdoptLombokGetterMethodNamesTest.java:36-53 | A non-empty plan renames its first entry's method, so the sources change. |
| AccessorApplier.FixedPointIffNothingPlanned | src/test/java/org/openrewrite/java/migrate/lombok/AdoptLombokGetterMethodNamesTest.java:540-614 | The recipe leaves the sources unchanged if and only if it plans nothing. |
| AccessorApplier.RecipeIsSafe | src/test/java/org/openrewrite/java/migrate/lombok/AdoptLombokGetterMethodNamesTest.java:165-276 | Either recipe keeps signatures distinct within each type and keeps overrides consistent, on every well-formed set of sources. |
| AccessorScenarios.TwoGettersFirstWins | src/test/java/org/openrewrite/java/migrate/lombok/AdoptLombokGetterMethodNamesTest.java:501-534 | Of two getters of `foo`, only the first becomes `getFoo`. |
| AccessorScenarios.ExistingNameBlocksRename | src/test/java/org/openrewrite/java/migrate/lombok/AdoptLombokGetterMethodNamesTest.java:595-614 | `getTime` is not renamed when the class already has `getFoo`. |
| AccessorScenarios.ExternalOverrideBlocksRename | src/test/java/org/openrewrite/java/migrate/lombok/AdoptLombokGetterMethodNamesTest.java:573-592 | An override of `java.util.Date.getTime` is not renamed. |
| AccessorScenarios.HierarchyPlan | src/test/java/org/openrewrite/java/migrate/lombok/AdoptLombokGetterMethodNamesTest.java:231-276 | The plan for `A.getTime` with an override in `B` is the single entry `getTime` to `getFoo`. |
| AccessorScenarios.OverrideAndCallRenamed | src/test/java/org/openrewrite/java/migrate/lombok/AdoptLombokGetterMethodNamesTest.java:231-276 | `A.getTime` and its override in `B` (whose body is no getter) both become `getFoo`. The override list and a call `a.getTime()` in a third class follow. |
| AccessorScenarios.SetterPlan | src/test/java/org/openrewrite/java/migrate/lombok/AdoptLombokSetterMethodNamesTest.java:267-300 | Of two setters of `foo`, the plan renames only the first to `setFoo`. |
| AccessorScenarios.FirstSetterWinsAndCallFollows | src/test/java/org/openrewrite/java/migrate/lombok/AdoptLombokSetterMethodNamesTest.java:267-300 | The first setter becomes `setFoo` and the second keeps its name. A call `a.firstToBeRenamed(4)` becomes `a.setFoo(4)`, as across classes at lines 148-183. |
| AccessorScenarios.ExternalSetterOverrideBlocksRename | src/test/java/org/openrewrite/java/migrate/lombok/AdoptLombokSetterMethodNamesTest.java:552-571 | A setter overriding `java.util.Date.setTime` is not renamed. |
| AccessorScenarios.ExistingSetterNameBlocksRename | src/test/java/org/openrewrite/java/migrate/lombok/AdoptLombokSetterMethodNamesTest.java:573-592 | `setTime` is not renamed when the class already has `setFoo`. |
| AccessorScenarios.CascadeFirstRun | src/test/java/org/openrewrite/java/migrate/lombok/AdoptLombokGetterMethodNamesTest.java:595-614 | `getFoo` returning `bar` becomes `getBar`, and `giveFoo` returning `foo` is blocked because `getFoo` still exists. |
| AccessorScenarios.SecondRunMayRenameMore | src/test/java/org/openrewrite/java/migrate/lombok/AdoptLombokGetterMethodNamesTest.java:595-614 | On that output a second run renames `giveFoo` to `getFoo`: the recipe is not idempotent. |
| AccessorScenarios.InnerSameNameBothRenamed | src/test/java/org/openrewrite/java/migrate/lombok/AdoptLombokGetterMethodNamesTest.java:352-397 | `giveFoo` in `A` and `giveFoo` in its inner class `A.B` are both planned to become `getFoo`, since names clash only within one type. |
| AccessorScenarios.CircleNothingPlanned | src/test/java/org/openrewrite/java/migrate/lombok/AdoptLombokGetterMethodNamesTest.java:452-491 | `getBar` returning `foo` and `getFoo` returning `bar` are not swapped: each target name is taken, so nothing is planned. |
| EmbeddableId.StripKeepsShape | src/test/java/org/openrewrite/java/migrate/javax/RemoveEmbeddableIdTest.java:34-72 | Stripping removes only `@Id`. Every class keeps its name, annotations and members. Every field keeps its name, type and other annotations, in order. |
| EmbeddableId.UntargetedUnchanged | src/test/java/org/openrewrite/java/migrate/javax/RemoveEmbeddableIdTest.java:74-102 | A class that is not both `@Embeddable` and referenced by an `@EmbeddedId` field, and holds no nested class that is, is unchanged. |
| EmbeddableId.IdFreeUnchanged | src/test/java/org/openrewrite/java/migrate/javax/RemoveEmbeddableIdTest.java:104-131 | A class without `@Id` is unchanged wherever it sits. |
| EmbeddableId.CoveredIdFree | src/test/java/org/openrewrite/java/migrate/javax/RemoveEmbeddableIdTest.java:211-257 | Inside a targeted class, nested classes included, no field keeps `@Id`. |
| EmbeddableId.StripFields | src/test/java/org/openrewrite/java/migrate/javax/RemoveEmbeddableIdTest.java:163-257 | Field by field, in source order, `@Id` is removed exactly from the fields that some enclosing class (their own included) makes targeted. |
| EmbeddableId.StripKeepsEmbeddedIds | src/test/java/org/openrewrite/java/migrate/javax/RemoveEmbeddableIdTest.java:34-72 | Stripping never touches `@EmbeddedId`, so the scan finds the same types after it. |
| EmbeddableId.StripTwice | src/test/java/org/openrewrite/java/migrate/javax/RemoveEmbeddableIdTest.java:34-72 | Stripping twice with the same types equals stripping once. |
| EmbeddableId.RemoveEmbeddableIdIdempotent | src/test/java/org/openrewrite/java/migrate/javax/RemoveEmbeddableIdTest.java:34-72 | Running the recipe on its own output changes nothing. |
| EmbeddableId.RemoveEmbeddableIdSpec | src/test/java/org/openrewrite/java/migrate/javax/RemoveEmbeddableIdTest.java:163-257 | For each class of the sources, the result's fields are the input's, with `@Id` gone exactly under a targeted class, and nothing else differs. |
| EmbeddableIdScenarios.RemovesIdFromEmbeddableObject | src/test/java/org/openrewrite/java/migrate/javax/RemoveEmbeddableIdTest.java:34-72 | The referenced `@Embeddable` class loses its field's `@Id` and keeps the field; the entity is unchanged. |
| EmbeddableIdScenarios.NoChangeIfNotEmbeddable | src/test/java/org/openrewrite/java/migrate/javax/RemoveEmbeddableIdTest.java:74-102 | A referenced class that is not `@Embeddable` is unchanged. |
| EmbeddableIdScenarios.NoChangeIfNoIdAnnotation | src/test/java/org/openrewrite/java/migrate/javax/RemoveEmbeddableIdTest.java:104-131 | An `@Embeddable` class without `@Id` is unchanged. |
| EmbeddableIdScenarios.NoChangeIfNotReferencedByEmbeddedId | src/test/java/org/openrewrite/java/migrate/javax/RemoveEmbeddableIdTest.java:133-161 | Without an `@EmbeddedId` field, nothing is targeted and nothing changes. |
| EmbeddableIdScenarios.RemovesIdFromInnerClassOnly | src/test/java/org/openrewrite/java/migrate/javax/RemoveEmbeddableIdTest.java:163-209 | Only the referenced nested `OuterClass.EmbeddableObject` loses `@Id`; the outer class keeps its own. |
| EmbeddableIdScenarios.RemovesIdFromClassAndInnerClasses | src/test/java/org/openrewrite/java/migrate/javax/RemoveEmbeddableIdTest.java:211-257 | A referenced `@Embeddable` outer class loses `@Id` on its own field and on its non-embeddable nested class's field. |

## Left out

- ValueRecordVisitor.VisitClassDeclaration: the record keeps its annotations. Removing `@lombok.Value` is done by OpenRewrite's `RemoveAnnotationVisitor`, which is not part of this model.
- ValueRecordVisitor.VisitClassRecord: states that the record keeps all its annotations, where the source removes `@lombok.Value` at line 371 of `LombokValueToRecord.java` by the `RemoveAnnotationVisitor` named above.
- ValueRecordVisitor.VisitClassDeclaration: the record's type is not rebuilt (`buildRecordType`); only the declaration kind changes.
- ValueRecordVisitor.VisitClassDeclaration: the `toString` method is appended as a statement holding its source text. `JavaTemplate` application and cursor handling are not modelled.
- Import removal (`maybeRemoveImport`), formatting (`maybeAutoFormat`), and the `UsesJavaVersion`/`UsesType` preconditions of the scanner are not modelled. The `@Id` import that `RemoveEmbeddableId` drops when no use remains is not modelled either.
- The scanner's accumulator is a `ConcurrentHashMap` in the source. The model is sequential, so concurrent scanning is not captured.
- Character case mapping covers ASCII letters only. `Character.toLowerCase`/`toUpperCase` on other characters is not modelled.
- Method and initializer bodies are reduced to the expressions they evaluate (`Code`); only the calls and references among them are rewritten. Their statement structure is not modelled.
- Local and anonymous classes do not occur in the model: method bodies are `Code` statements that hold only expressions. The scanner's check at lines 189-190 of `LombokValueToRecord.java` treats every class that is a block statement as nested, local classes included. A local class cannot be `static`, so it would never be registered. The model's `nested` flag covers classes that are statements of a class body.
- Accessor bodies are abstract: a getter returns a field of its own type by simple name or `this.`; a setter stores its parameter the same way. Fields of enclosing types, and expressions other than names, are not recognised.
- AccessorPlanner.Admissible: a method that overrides anything is never a candidate itself. It is renamed only together with the method it overrides.
- AccessorPlanner.EntryOk: a rename is refused when the new name already exists in an affected type, whatever that method's parameters are. This checks by name, where a signature clash would be a weaker test.
- AccessorClassifier.EffectiveSetterField: the setter's return type is not checked.
- AccessorClassifier.BoxingIsNotSetter: the field is named `foo` so that only the boxing decides. In the tests at lines 525-550 of the setter suite the field is `Foo`, which is not a setter for a second reason: no field `foo` exists.
- The tests marked `@ExpectedToFail` describe the intended output, which the recipes do not produce. The model diverges from the recipes on the first of them:
  - Same-named accessors in a type and its inner type (getter test lines 352-397, setter test lines 380-425): the model renames both (`AccessorScenarios.InnerSameNameBothRenamed`). That is the tests' intended output, not what the recipes produce.
  - Circular renames (getter test lines 452-491, setter test lines 480-519): the model plans nothing, like the recipes, because each target name is still taken (`AccessorScenarios.CircleNothingPlanned`).
- The implementations of `AdoptLombokGetterMethodNames`, `AdoptLombokSetterMethodNames`, `LombokUtils` and `RemoveEmbeddableId` are not part of this model. Their behaviour is taken from the cited tests.
- The embedded-id model refers to types by fully qualified name. Resolving a simple or nested type name (`OuterClass.EmbeddableObject`) to it is not modelled.
