/**
 * The static-field globals TypeCompiler creates while it walks a layout: every static field of
 * the walk ends up registered, a global already registered is never replaced, and a field met
 * again (through a derived type, whose layout repeats its base's) gets no second global.
 */
module StaticGlobals {
  import opened Ir
  import opened Metadata
  import opened StructLayout
  import opened TypeCompilation

  /** The static fields of a non-empty walk: those before its last entry, and that entry's. */
  lemma StaticFieldsLast(entries: seq<StructEntry>)
    requires entries != []
    ensures var e := entries[|entries| - 1];
      StaticFields(entries) ==
        StaticFields(entries[..|entries| - 1]) + (if e.FieldEntry? && e.field.isStatic then {e.field} else {})
  {
    var init := entries[..|entries| - 1];
    var e := entries[|entries| - 1];
    forall f | f in StaticFields(entries)
      ensures f in StaticFields(init) + (if e.FieldEntry? && e.field.isStatic then {e.field} else {})
    {
      var x :| x in entries && x.FieldEntry? && x.field.isStatic && x.field == f;
      var k :| 0 <= k < |entries| && entries[k] == x;
      if k < |entries| - 1 {
        assert init[k] == x;
      }
    }
    forall f | f in StaticFields(init)
      ensures f in StaticFields(entries)
    {
      var x :| x in init && x.FieldEntry? && x.field.isStatic && x.field == f;
      var k :| 0 <= k < |init| && init[k] == x;
      assert entries[k] == x;
    }
    if e.FieldEntry? && e.field.isStatic {
      assert e in entries;
    }
  }

  /** One step registers the static field it meets unless it is registered already. */
  lemma StaticStepRegisters(env: Env, e: StructEntry, s: Statics)
    ensures StaticStep(env, e, s).registered.Keys ==
      s.registered.Keys + (if e.FieldEntry? && e.field.isStatic then {e.field} else {})
    ensures forall f | f in s.registered :: StaticStep(env, e, s).registered[f] == s.registered[f]
    ensures StaticStep(env, e, s).nextId - s.nextId == |StaticStep(env, e, s).registered.Keys| - |s.registered.Keys|
  {
    if e.FieldEntry? && e.field.isStatic && e.field !in s.registered {
      var r := StaticStep(env, e, s);
      assert r.registered.Keys == s.registered.Keys + {e.field};
      assert |r.registered.Keys| == |s.registered.Keys| + 1;
    }
  }

  /** The walk registers exactly the static fields it meets, on top of what was registered. */
  lemma {:induction false} DeclareStaticsRegisters(env: Env, entries: seq<StructEntry>, s: Statics)
    ensures DeclareStatics(env, entries, s).registered.Keys == s.registered.Keys + StaticFields(entries)
    decreases |entries|
  {
    if entries != [] {
      var init := entries[..|entries| - 1];
      var before := DeclareStatics(env, init, s);
      DeclareStaticsRegisters(env, init, s);
      StaticFieldsLast(entries);
      StaticStepRegisters(env, entries[|entries| - 1], before);
    }
  }

  /** The walk keeps every registration made before it. */
  lemma {:induction false} DeclareStaticsKeeps(env: Env, entries: seq<StructEntry>, s: Statics)
    ensures forall f | f in s.registered ::
      f in DeclareStatics(env, entries, s).registered && DeclareStatics(env, entries, s).registered[f] == s.registered[f]
    decreases |entries|
  {
    if entries != [] {
      var init := entries[..|entries| - 1];
      var before := DeclareStatics(env, init, s);
      DeclareStaticsKeeps(env, init, s);
      StaticStepRegisters(env, entries[|entries| - 1], before);
    }
  }

  /** The walk takes one fresh identity, for one new global, per field it registers. */
  lemma {:induction false} DeclareStaticsFreshIds(env: Env, entries: seq<StructEntry>, s: Statics)
    ensures DeclareStatics(env, entries, s).nextId - s.nextId ==
      |DeclareStatics(env, entries, s).registered.Keys| - |s.registered.Keys|
    decreases |entries|
  {
    if entries != [] {
      var init := entries[..|entries| - 1];
      DeclareStaticsFreshIds(env, init, s);
      StaticStepRegisters(env, entries[|entries| - 1], DeclareStatics(env, init, s));
    }
  }

  /** A walk that meets only registered static fields creates nothing and changes nothing. */
  lemma {:induction false} DeclareStaticsIdle(env: Env, entries: seq<StructEntry>, s: Statics)
    requires StaticFields(entries) <= s.registered.Keys
    ensures DeclareStatics(env, entries, s) == s
    decreases |entries|
  {
    if entries != [] {
      StaticFieldsLast(entries);
      DeclareStaticsIdle(env, entries[..|entries| - 1], s);
    }
  }

  /**
   * Compiling a base type and then a type derived from it: the static fields of the base keep the
   * globals the base's compilation gave them.
   */
  lemma DerivedKeepsBaseGlobals(env: Env, m: Types, a: TypeId, t: TypeId, s: Statics)
    requires WellFormed(m) && a in m && t in m
    ensures var afterBase := DeclareStatics(env, Layout(m, a), s);
      var afterDerived := DeclareStatics(env, Layout(m, t), afterBase);
      forall f | f in StaticFields(Layout(m, a)) ::
        f in afterBase.registered && f in afterDerived.registered && afterDerived.registered[f] == afterBase.registered[f]
  {
    var afterBase := DeclareStatics(env, Layout(m, a), s);
    DeclareStaticsRegisters(env, Layout(m, a), s);
    DeclareStaticsKeeps(env, Layout(m, t), afterBase);
  }

  /** Walking the same layout twice creates its globals once. */
  lemma WalkTwiceIsOnce(env: Env, entries: seq<StructEntry>, s: Statics)
    ensures DeclareStatics(env, entries, DeclareStatics(env, entries, s)) == DeclareStatics(env, entries, s)
  {
    DeclareStaticsRegisters(env, entries, s);
    DeclareStaticsIdle(env, entries, DeclareStatics(env, entries, s));
  }
}
