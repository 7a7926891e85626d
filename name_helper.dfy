/**
 * Generated names for types and methods (Helpers/NameHelper.cs). A call to a method that is not
 * compiled yet is declared under the name CreateMethodName gives it, so the scheme must be exact.
 */
module NameHelper {

  /** String.Replace(char, char): every occurrence of `from` becomes `to`. */
  function Replace(s: string, from: char, to: char): (r: string)
    ensures |r| == |s|
    ensures forall i :: 0 <= i < |s| ==> r[i] == if s[i] == from then to else s[i]
  {
    if s == [] then [] else [if s[0] == from then to else s[0]] + Replace(s[1..], from, to)
  }

  /** The characters the type-name transform rewrites. */
  predicate IsTypeNameSeparator(c: char) {
    c == '.' || c == '[' || c == ']'
  }

  /** CreateTypeName, on the type's FullName: '.', '[' and ']' each become '_'. */
  function CreateTypeName(fullName: string): (r: string)
    ensures |r| == |fullName|
    ensures forall i :: 0 <= i < |r| ==>
      r[i] == if IsTypeNameSeparator(fullName[i]) then '_' else fullName[i]
    ensures forall i :: 0 <= i < |r| ==> !IsTypeNameSeparator(r[i])
  {
    Replace(Replace(Replace(fullName, '.', '_'), '[', '_'), ']', '_')
  }

  /** The method-name component: only '.' is rewritten, so '[' and ']' survive. */
  function MethodNamePart(name: string): (r: string)
    ensures |r| == |name|
    ensures forall i :: 0 <= i < |r| ==> r[i] == if name[i] == '.' then '_' else name[i]
    ensures forall i :: 0 <= i < |r| ==> r[i] != '.'
  {
    Replace(name, '.', '_')
  }

  /** The parameter type names, each transformed, in declaration order with no separator. */
  function ParamList(paramTypes: seq<string>): string {
    if paramTypes == [] then ""
    else ParamList(paramTypes[..|paramTypes| - 1]) + CreateTypeName(paramTypes[|paramTypes| - 1])
  }

  /** The name format "{returnType}_{declaringType}_{methodName}_{parameters}". */
  function MethodName(returnType: string, declaringType: string, name: string, paramTypes: seq<string>): string {
    CreateTypeName(returnType) + "_" + CreateTypeName(declaringType) + "_" + MethodNamePart(name) + "_"
      + ParamList(paramTypes)
  }

  /** CreateMethodName: accumulates the parameter list with a loop, then formats. */
  method CreateMethodName(returnType: string, declaringType: string, name: string, paramTypes: seq<string>)
    returns (r: string)
    ensures r == MethodName(returnType, declaringType, name, paramTypes)
  {
    var returnPart := CreateTypeName(returnType);
    var methodPart := MethodNamePart(name);
    var parentPart := CreateTypeName(declaringType);
    var paramPart := "";
    var i := 0;
    while i < |paramTypes|
      invariant 0 <= i <= |paramTypes|
      invariant paramPart == ParamList(paramTypes[..i])
    {
      assert paramTypes[..i + 1][..i] == paramTypes[..i];
      paramPart := paramPart + CreateTypeName(paramTypes[i]);
      i := i + 1;
    }
    assert paramTypes[..i] == paramTypes;
    r := returnPart + "_" + parentPart + "_" + methodPart + "_" + paramPart;
  }

  /** Applying the type-name transform to its own output changes nothing. */
  lemma CreateTypeNameIdempotent(fullName: string)
    ensures CreateTypeName(CreateTypeName(fullName)) == CreateTypeName(fullName)
  {
    var once := CreateTypeName(fullName);
    var twice := CreateTypeName(once);
    assert |twice| == |once|;
    forall i | 0 <= i < |once| ensures twice[i] == once[i] {
      assert !IsTypeNameSeparator(once[i]);
    }
  }

  /** A parameterless method's name is the three components, each followed by '_'. */
  lemma ParameterlessNameEndsInSeparator(returnType: string, declaringType: string, name: string)
    ensures MethodName(returnType, declaringType, name, []) ==
      CreateTypeName(returnType) + "_" + CreateTypeName(declaringType) + "_" + MethodNamePart(name) + "_"
    ensures MethodName(returnType, declaringType, name, [])[|MethodName(returnType, declaringType, name, [])| - 1] == '_'
  {
  }

  /** Appending a parameter appends its transformed type name, so names extend parameter by parameter. */
  lemma {:induction false} ParamListLength(paramTypes: seq<string>)
    ensures |ParamList(paramTypes)| == SumOfLengths(paramTypes)
  {
    if paramTypes != [] {
      ParamListLength(paramTypes[..|paramTypes| - 1]);
    }
  }

  function SumOfLengths(names: seq<string>): nat {
    if names == [] then 0 else SumOfLengths(names[..|names| - 1]) + |names[|names| - 1]|
  }

  /** No '.', '[' or ']' anywhere in the string. */
  predicate NoSeparators(s: string) {
    forall i :: 0 <= i < |s| ==> !IsTypeNameSeparator(s[i])
  }

  lemma NoSeparatorsConcat(a: string, b: string)
    requires NoSeparators(a) && NoSeparators(b)
    ensures NoSeparators(a + b)
  {
    forall i | 0 <= i < |a + b| ensures !IsTypeNameSeparator((a + b)[i]) {
      if i >= |a| {
        assert (a + b)[i] == b[i - |a|];
      }
    }
  }

  /** The parameter part of a generated method name contains no '.', '[' or ']'. */
  lemma {:induction false} ParamListHasNoSeparators(paramTypes: seq<string>)
    ensures NoSeparators(ParamList(paramTypes))
  {
    if paramTypes != [] {
      ParamListHasNoSeparators(paramTypes[..|paramTypes| - 1]);
      NoSeparatorsConcat(ParamList(paramTypes[..|paramTypes| - 1]), CreateTypeName(paramTypes[|paramTypes| - 1]));
    }
  }

  /** A type name is determined by its characters one by one. */
  lemma TypeNameIs(fullName: string, expected: string)
    requires |expected| == |fullName|
    requires forall i :: 0 <= i < |fullName| ==>
      expected[i] == if IsTypeNameSeparator(fullName[i]) then '_' else fullName[i]
    ensures CreateTypeName(fullName) == expected
  {
  }

  /** A method name is assembled from its already-transformed components. */
  lemma MethodNameFrom(returnType: string, declaringType: string, name: string, paramTypes: seq<string>,
                       returnPart: string, parentPart: string, methodPart: string, paramPart: string)
    requires CreateTypeName(returnType) == returnPart && CreateTypeName(declaringType) == parentPart
    requires MethodNamePart(name) == methodPart && ParamList(paramTypes) == paramPart
    ensures MethodName(returnType, declaringType, name, paramTypes) ==
      returnPart + "_" + parentPart + "_" + methodPart + "_" + paramPart
  {
  }

  lemma SingleParamList(paramType: string, expected: string)
    requires CreateTypeName(paramType) == expected
    ensures ParamList([paramType]) == expected
  {
    assert [paramType][..0] == [];
  }

  lemma Int32TypeName()
    ensures CreateTypeName("System.Int32") == "System_Int32"
  {
    TypeNameIs("System.Int32", "System_Int32");
  }

  lemma StringTypeName()
    ensures CreateTypeName("System.String") == "System_String"
  {
    TypeNameIs("System.String", "System_String");
  }

  lemma FooTypeName()
    ensures CreateTypeName("Foo") == "Foo"
  {
    TypeNameIs("Foo", "Foo");
  }

  lemma BarMethodPart()
    ensures MethodNamePart("Bar") == "Bar"
  {
    var m := MethodNamePart("Bar");
    assert forall i :: 0 <= i < 3 ==> m[i] == "Bar"[i];
  }

  lemma GoldenExampleParts()
    ensures MethodName("System.Int32", "Foo", "Bar", ["System.String"]) ==
      "System_Int32" + "_" + "Foo" + "_" + "Bar" + "_" + "System_String"
  {
    Int32TypeName();
    StringTypeName();
    FooTypeName();
    BarMethodPart();
    SingleParamList("System.String", "System_String");
    MethodNameFrom("System.Int32", "Foo", "Bar", ["System.String"], "System_Int32", "Foo", "Bar", "System_String");
  }

  lemma GoldenExampleSpelled()
    ensures "System_Int32" + "_" + "Foo" + "_" + "Bar" + "_" + "System_String" == "System_Int32_Foo_Bar_System_String"
  {
  }

  /** The example the naming scheme is checked against: int Foo.Bar(string). */
  lemma GoldenExample()
    ensures MethodName("System.Int32", "Foo", "Bar", ["System.String"]) == "System_Int32_Foo_Bar_System_String"
  {
    GoldenExampleParts();
    GoldenExampleSpelled();
  }

  /** Brackets in a method's own name survive, unlike in type names. */
  lemma BracketsSurviveInMethodName()
    ensures MethodNamePart("Item[]") == "Item[]"
    ensures CreateTypeName("Item[]") == "Item__"
  {
    TypeNameIs("Item[]", "Item__");
    var m := MethodNamePart("Item[]");
    assert forall i :: 0 <= i < 6 ==> m[i] == "Item[]"[i];
  }
}
