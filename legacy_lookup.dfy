/**
 * The older symbol table of Compiler/Lookup.cs: functions by name, static-field globals and IR
 * types, each a write-once dictionary, and the static constructors in the order they were added.
 */
module LegacyLookups {
  import opened Wrappers
  import opened Ir
  import opened Metadata

  class LegacyLookup {
    var functions: map<string, Value>
    var staticFields: map<FieldDef, Value>
    var types: map<TypeId, IrType>
    var cctors: seq<MethodId>

    constructor ()
      ensures functions == map[] && staticFields == map[] && types == map[] && cctors == []
    {
      functions := map[];
      staticFields := map[];
      types := map[];
      cctors := [];
    }

    /** The registered function, or null for an unknown name. */
    function GetFunction(name: string): (r: Option<Value>)
      reads this
      ensures r.Some? <==> name in functions
      ensures r.Some? ==> r.value == functions[name]
    {
      if name in functions then Some(functions[name]) else None
    }

    /** Dictionary.Add: a name already present throws and changes nothing. */
    method AddFunction(name: string, function_: Value) returns (o: Outcome)
      modifies this`functions
      ensures name in old(functions) ==> o == Fail(DuplicateKey) && functions == old(functions)
      ensures name !in old(functions) ==> o == Pass && functions == old(functions)[name := function_]
      ensures o.Pass? ==> GetFunction(name) == Some(function_)
    {
      if name in functions {
        return Fail(DuplicateKey);
      }
      functions := functions[name := function_];
      return Pass;
    }

    /** The registered global of a static field, or null. */
    function GetStaticField(field: FieldDef): (r: Option<Value>)
      reads this
      ensures r.Some? <==> field in staticFields
      ensures r.Some? ==> r.value == staticFields[field]
    {
      if field in staticFields then Some(staticFields[field]) else None
    }

    method AddStaticField(field: FieldDef, val: Value) returns (o: Outcome)
      modifies this`staticFields
      ensures field in old(staticFields) ==> o == Fail(DuplicateKey) && staticFields == old(staticFields)
      ensures field !in old(staticFields) ==> o == Pass && staticFields == old(staticFields)[field := val]
      ensures o.Pass? ==> GetStaticField(field) == Some(val)
    {
      if field in staticFields {
        return Fail(DuplicateKey);
      }
      staticFields := staticFields[field := val];
      return Pass;
    }

    /**
     * HasStaticField, which the older TypeCompiler calls but Compiler/Lookup.cs does not define:
     * taken to mean that a global is registered for the field.
     */
    predicate HasStaticField(field: FieldDef)
      reads this
      ensures HasStaticField(field) <==> GetStaticField(field).Some?
    {
      field in staticFields
    }

    method AddCctor(cctor: MethodId)
      modifies this`cctors
      ensures cctors == old(cctors) + [cctor]
    {
      cctors := cctors + [cctor];
    }

    method AddType(t: TypeId, typeRef: IrType) returns (o: Outcome)
      modifies this`types
      ensures t in old(types) ==> o == Fail(DuplicateKey) && types == old(types)
      ensures t !in old(types) ==> o == Pass && types == old(types)[t := typeRef]
      ensures o.Pass? ==> GetTypeRef(t) == Success(typeRef)
    {
      if t in types {
        return Fail(DuplicateKey);
      }
      types := types[t := typeRef];
      return Pass;
    }

    /** The registered IR type; an unknown type is an InvalidOperationException. */
    function GetTypeRef(t: TypeId): (r: Result<IrType>)
      reads this
      ensures r.Success? <==> t in types
      ensures r.Success? ==> r.value == types[t]
      ensures r.Failure? ==> r.error == InvalidOperation
    {
      if t !in types then Failure(InvalidOperation) else Success(types[t])
    }

    /** The static constructors in the order they were added, as a fresh array. */
    method GetStaticConstructors() returns (a: array<MethodId>)
      ensures fresh(a) && a[..] == cctors
    {
      a := new MethodId[|cctors|](i requires 0 <= i < |cctors| reads this => cctors[i]);
    }
  }
}
