/**
 * The older type compiler of Compiler/TypeCompiler.cs: the module type is skipped, an enum is an
 * Int32, and any other type becomes a named struct whose body is its instance fields in order;
 * its static fields become globals, compiler-generated fields are skipped, and the packing size
 * is checked after the fields.
 */
module LegacyTypeCompilation {
  import opened Wrappers
  import opened Ir
  import opened Metadata
  import opened StructLayout
  import opened LegacyLookups
  import opened TypeCompilation
  import opened StaticGlobals
  import NameHelper

  /** Every field has a full name whose first character can be read. */
  predicate HasFullNames(fields: seq<FieldDef>) {
    forall f | f in fields :: f.fullName != []
  }

  /** A compiler-generated field: its full name starts with '<'. */
  predicate IsInternal(f: FieldDef)
    requires f.fullName != []
  {
    f.fullName[0] == '<'
  }

  /** The struct body collected so far and the static globals, IR and fresh identities. */
  datatype Walk = Walk(body: seq<IrType>, statics: Statics)

  /** One turn of the field loop: internal fields are skipped, static ones get a global once. */
  function FieldStep(env: Env, f: FieldDef, w: Walk): Walk
    requires f.fullName != []
  {
    if IsInternal(f) then w
    else if f.isStatic then w.(statics := StaticStep(env, FieldEntry(f), w.statics))
    else w.(body := w.body + [env.typeRef(f.fieldType)])
  }

  /** The field loop over `fields`, in order. */
  function WalkFields(env: Env, fields: seq<FieldDef>, w: Walk): Walk
    requires HasFullNames(fields)
  {
    if fields == [] then w
    else FieldStep(env, fields[|fields| - 1], WalkFields(env, fields[..|fields| - 1], w))
  }

  /** The fields that are not compiler-generated, in order. */
  function Visible(fields: seq<FieldDef>): (r: seq<FieldDef>)
    requires HasFullNames(fields)
    ensures HasFullNames(r) && |r| <= |fields|
    ensures forall f | f in r :: f in fields && !IsInternal(f)
  {
    if fields == [] then []
    else
      var last := fields[|fields| - 1];
      Visible(fields[..|fields| - 1]) + (if IsInternal(last) then [] else [last])
  }

  /** The IR types of the instance fields, in order. */
  function InstanceTypes(env: Env, fields: seq<FieldDef>): seq<IrType> {
    if fields == [] then []
    else
      var last := fields[|fields| - 1];
      InstanceTypes(env, fields[..|fields| - 1]) + (if last.isStatic then [] else [env.typeRef(last.fieldType)])
  }

  /** The fields as layout entries, so that the global creation of TypeCompilation applies. */
  function FieldEntries(fields: seq<FieldDef>): (r: seq<StructEntry>)
    ensures |r| == |fields|
  {
    if fields == [] then [] else FieldEntries(fields[..|fields| - 1]) + [FieldEntry(fields[|fields| - 1])]
  }

  lemma VisibleSnoc(fields: seq<FieldDef>, f: FieldDef)
    requires HasFullNames(fields) && f.fullName != []
    ensures HasFullNames(fields + [f])
    ensures Visible(fields + [f]) == Visible(fields) + (if IsInternal(f) then [] else [f])
  {
    assert (fields + [f])[..|fields|] == fields;
  }

  lemma InstanceTypesSnoc(env: Env, fields: seq<FieldDef>, f: FieldDef)
    ensures InstanceTypes(env, fields + [f]) == InstanceTypes(env, fields) + (if f.isStatic then [] else [env.typeRef(f.fieldType)])
  {
    assert (fields + [f])[..|fields|] == fields;
  }

  lemma FieldEntriesSnoc(fields: seq<FieldDef>, f: FieldDef)
    ensures FieldEntries(fields + [f]) == FieldEntries(fields) + [FieldEntry(f)]
  {
    assert (fields + [f])[..|fields|] == fields;
  }

  lemma DeclareStaticsSnoc(env: Env, entries: seq<StructEntry>, e: StructEntry, s: Statics)
    ensures DeclareStatics(env, entries + [e], s) == StaticStep(env, e, DeclareStatics(env, entries, s))
  {
    assert (entries + [e])[..|entries|] == entries;
  }

  /** One visible field extends the body and the global walk by that field. */
  lemma VisibleFieldStep(env: Env, vis: seq<FieldDef>, last: FieldDef, body0: seq<IrType>, s: Statics)
    requires last.fullName != [] && !IsInternal(last)
    ensures FieldStep(env, last, Walk(body0 + InstanceTypes(env, vis), DeclareStatics(env, FieldEntries(vis), s))) ==
      Walk(body0 + InstanceTypes(env, vis + [last]), DeclareStatics(env, FieldEntries(vis + [last]), s))
  {
    InstanceTypesSnoc(env, vis, last);
    FieldEntriesSnoc(vis, last);
    DeclareStaticsSnoc(env, FieldEntries(vis), FieldEntry(last), s);
  }

  /**
   * The field loop appends the instance fields that are not compiler-generated, in order, and
   * creates the globals of the static ones exactly as the layout walk of TypeCompilation does.
   */
  lemma {:induction false} WalkFieldsIs(env: Env, fields: seq<FieldDef>, w: Walk)
    requires HasFullNames(fields)
    ensures WalkFields(env, fields, w) ==
      Walk(w.body + InstanceTypes(env, Visible(fields)), DeclareStatics(env, FieldEntries(Visible(fields)), w.statics))
    decreases |fields|
  {
    if fields != [] {
      var init := fields[..|fields| - 1];
      var last := fields[|fields| - 1];
      WalkFieldsIs(env, init, w);
      if !IsInternal(last) {
        assert Visible(fields) == Visible(init) + [last];
        VisibleFieldStep(env, Visible(init), last, w.body, w.statics);
      } else {
        assert Visible(fields) == Visible(init);
      }
    }
  }

  lemma {:induction false} VisibleIdempotent(fields: seq<FieldDef>)
    requires HasFullNames(fields)
    ensures Visible(Visible(fields)) == Visible(fields)
    decreases |fields|
  {
    if fields != [] {
      var init := fields[..|fields| - 1];
      var last := fields[|fields| - 1];
      VisibleIdempotent(init);
      if !IsInternal(last) {
        VisibleSnoc(Visible(init), last);
      } else {
        assert Visible(fields) == Visible(init);
      }
    }
  }

  /** Compiler-generated fields change nothing: the loop over the others alone does the same. */
  lemma InternalFieldsIgnored(env: Env, fields: seq<FieldDef>, w: Walk)
    requires HasFullNames(fields)
    ensures WalkFields(env, Visible(fields), w) == WalkFields(env, fields, w)
  {
    WalkFieldsIs(env, fields, w);
    WalkFieldsIs(env, Visible(fields), w);
    VisibleIdempotent(fields);
  }

  /**
   * The globals after the loop: exactly the visible static fields are added, earlier ones are
   * kept, and a global is created only for a field that had none.
   */
  lemma WalkRegistersStatics(env: Env, fields: seq<FieldDef>, w: Walk)
    requires HasFullNames(fields)
    ensures WalkFields(env, fields, w).statics.registered.Keys ==
      w.statics.registered.Keys + StaticFields(FieldEntries(Visible(fields)))
    ensures forall f | f in w.statics.registered :: WalkFields(env, fields, w).statics.registered[f] == w.statics.registered[f]
    ensures WalkFields(env, fields, w).statics.nextId - w.statics.nextId ==
      |WalkFields(env, fields, w).statics.registered.Keys| - |w.statics.registered.Keys|
  {
    WalkFieldsIs(env, fields, w);
    DeclareStaticsRegisters(env, FieldEntries(Visible(fields)), w.statics);
    DeclareStaticsKeeps(env, FieldEntries(Visible(fields)), w.statics);
    DeclareStaticsFreshIds(env, FieldEntries(Visible(fields)), w.statics);
  }

  predicate PackingSupported(d: TypeDef) {
    d.packingSize == -1 || d.packingSize == 0 || d.packingSize == 1
  }

  /** The walk Compile starts from: no body yet, the registered globals and the IR so far. */
  function StartWalk(staticFields: map<FieldDef, Value>, code: seq<Instr>, nextId: nat): Walk {
    Walk([], Statics(staticFields, code, nextId))
  }

  /** The loop of Compile over the fields of a struct or class. */
  method CompileFields(env: Env, fields: seq<FieldDef>, lookup: LegacyLookup, ir: IrModule) returns (structData: seq<IrType>)
    requires HasFullNames(fields)
    modifies lookup`staticFields, ir`code, ir`nextId
    ensures Walk(structData, Statics(lookup.staticFields, ir.code, ir.nextId)) ==
      WalkFields(env, fields, StartWalk(old(lookup.staticFields), old(ir.code), old(ir.nextId)))
  {
    ghost var w0 := StartWalk(lookup.staticFields, ir.code, ir.nextId);
    structData := [];
    var j := 0;
    while j < |fields|
      invariant 0 <= j <= |fields|
      invariant Walk(structData, Statics(lookup.staticFields, ir.code, ir.nextId)) == WalkFields(env, fields[..j], w0)
    {
      var field := fields[j];
      assert fields[..j + 1] == fields[..j] + [field];
      assert fields[..j + 1][..j] == fields[..j];
      if field.fullName[0] != '<' {
        var fieldType := env.typeRef(field.fieldType);
        if field.isStatic {
          if !lookup.HasStaticField(field) {
            var id := ir.Fresh();
            var val := Global(id, fieldType);
            ir.Append(AddGlobal(val, env.fieldName(field.fullName)));
            ir.Append(SetInitializer(val, ConstNull(fieldType)));
            var added := lookup.AddStaticField(field, val);
          }
        } else {
          structData := structData + [fieldType];
        }
      }
      j := j + 1;
    }
    assert fields[..j] == fields;
  }

  /**
   * Compile. The module type returns at once. An enum is registered as Int32. Any other type gets
   * a named struct, registered before its fields are looked at; then the field loop, the packing
   * check, and the body.
   */
  method Compile(env: Env, m: Types, t: TypeId, lookup: LegacyLookup, ir: IrModule) returns (o: Outcome)
    requires t in m && HasFullNames(env.legacyFields(t))
    modifies lookup`types, lookup`staticFields, ir`code, ir`nextId
    ensures m[t].fullName == "<Module>" ==>
      && o == Pass && lookup.types == old(lookup.types) && lookup.staticFields == old(lookup.staticFields)
      && ir.code == old(ir.code) && ir.nextId == old(ir.nextId)
    ensures m[t].fullName != "<Module>" && m[t].isEnum ==>
      && lookup.staticFields == old(lookup.staticFields) && ir.code == old(ir.code) && ir.nextId == old(ir.nextId)
      && (t in old(lookup.types) ==> o == Fail(DuplicateKey) && lookup.types == old(lookup.types))
      && (t !in old(lookup.types) ==> o == Pass && lookup.types == old(lookup.types)[t := Int32])
    ensures m[t].fullName != "<Module>" && !m[t].isEnum && t in old(lookup.types) ==>
      && o == Fail(DuplicateKey) && lookup.types == old(lookup.types) && lookup.staticFields == old(lookup.staticFields)
      && ir.code == old(ir.code) + [NamedStruct(Named(NameHelper.CreateTypeName(m[t].fullName)))]
      && ir.nextId == old(ir.nextId)
    ensures m[t].fullName != "<Module>" && !m[t].isEnum && t !in old(lookup.types) ==>
      var data := Named(NameHelper.CreateTypeName(m[t].fullName));
      var w := WalkFields(env, env.legacyFields(t), StartWalk(old(lookup.staticFields), old(ir.code) + [NamedStruct(data)], old(ir.nextId)));
      && lookup.types == old(lookup.types)[t := data]
      && lookup.staticFields == w.statics.registered && ir.nextId == w.statics.nextId
      && (PackingSupported(m[t]) ==> o == Pass && ir.code == w.statics.code + [StructBody(data, w.body, m[t].packingSize != -1)])
      && (!PackingSupported(m[t]) ==> o == Fail(NotImplemented) && ir.code == w.statics.code)
  {
    var d := m[t];
    if d.fullName == "<Module>" {
      return Pass;
    }
    if d.isEnum {
      o := lookup.AddType(t, Int32);
      return;
    }
    var data := Named(NameHelper.CreateTypeName(d.fullName));
    ir.Append(NamedStruct(data));
    o := lookup.AddType(t, data);
    if o.Fail? {
      return;
    }
    var structData := CompileFields(env, env.legacyFields(t), lookup, ir);
    var packed := d.packingSize != -1;
    if d.packingSize != 1 && d.packingSize != -1 && d.packingSize != 0 {
      return Fail(NotImplemented);
    }
    ir.Append(StructBody(data, structData, packed));
  }
}
