/**
  The listener the Java source indexer runs over a parsed file. It keeps the
  internal name of the type being visited in a string builder: a package
  declaration contributes `pkg/`, a top-level type `Name`, a member type
  `$Name`; leaving a type cuts its part off again. Declared types, methods and
  constructors go into sets, and each type's resolved super types into a map
  that the indexer finally inverts into sub-type lists. Parsing and the
  resolution of type names to internal names are done by the JDT and by code
  not shown here: their results are parameters.
*/
module JavaFileIndexer {
  import opened JavaStrings

  // -- The type-name builder ---------------------------------------------------- //

  /** The builder after entering a type called `name`: the bare name after a
      package (or at the start), `$name` inside another type. */
  function Entered(builder: string, name: string): (r: string)
    ensures builder <= r && |builder| + |name| <= |r| && r[|r| - |name|..] == name
    ensures |r| == |builder| + |name| + 1 <==> |builder| > 0 && builder[|builder| - 1] != '/'
    ensures |r| == |builder| + |name| || (|r| == |builder| + |name| + 1 && r[|builder|] == '$')
  {
    if |builder| == 0 || builder[|builder| - 1] == '/' then builder + name else builder + "$" + name
  }

  /** Where `exitTypeDeclaration` cuts the builder: at its last '$', else just
      after its last '/', else at 0. The `-1` case the source also tests for
      cannot arise, since 1 is added to the '/' search. */
  function ExitLength(builder: string): (r: int)
    ensures 0 <= r <= |builder|
    ensures '$' in builder ==> r < |builder| && builder[r] == '$' && '$' !in builder[r + 1..]
    ensures '$' !in builder ==> '/' !in builder[r..] && (r == 0 || builder[r - 1] == '/')
  {
    var dollar := LastIndexOf(builder, '$');
    if dollar != -1 then dollar else LastIndexOf(builder, '/') + 1
  }

  /** `exitTypeDeclaration`'s cut: what it removes is the innermost type's part,
      from the last '$' on, or, with no '$', the simple name after the last '/'. */
  function Exited(builder: string): (r: string)
    ensures r <= builder
    ensures '$' in builder ==> |r| < |builder| && builder[|r|] == '$' && '$' !in builder[|r| + 1..]
    ensures '$' !in builder ==> '/' !in builder[|r|..] && (r == "" || r[|r| - 1] == '/')
  {
    builder[..ExitLength(builder)]
  }

  predicate IsSimpleName(name: string) {
    '$' !in name && '/' !in name
  }

  /** A builder that entering a type and leaving it gives back: one that does not
      end in a package separator after a '$'. */
  predicate Restorable(builder: string) {
    !(|builder| > 0 && builder[|builder| - 1] == '/' && '$' in builder)
  }

  /** Entering a type with a simple name and leaving it restores the builder. */
  lemma EnterThenExitRestores(builder: string, name: string)
    requires IsSimpleName(name) && Restorable(builder)
    ensures Exited(Entered(builder, name)) == builder
  {
    var b := Entered(builder, name);
    if |builder| == 0 || builder[|builder| - 1] == '/' {
      assert b[|builder|..] == name;
      assert '$' !in b;
      assert '/' !in b[|builder|..];
    } else {
      assert b[|builder|] == '$' && b[|builder| + 1..] == name;
    }
  }

  /** Entering keeps the builder restorable, so nested types unwind in order. */
  lemma EnterKeepsRestorable(builder: string, name: string)
    requires IsSimpleName(name) && Restorable(builder)
    ensures Restorable(Entered(builder, name))
  {
    var b := Entered(builder, name);
    if |name| > 0 {
      assert b[|b| - 1] == name[|name| - 1];
    }
  }

  /** A package name holding '$' breaks the restore: leaving the type cuts into
      the package. */
  lemma DollarInPackageNotRestored()
    ensures Exited(Entered("a$b/", "C")) == "a"
  {
    assert Entered("a$b/", "C") == "a$b/C";
    assert LastIndexOf("a$b/C", '$') == 1;
  }

  // -- The listener ---------------------------------------------------------------- //

  /** The resolved super-type names that are kept: those not starting with '*'
      (a name resolution could not qualify). */
  function KeptSuperTypes(resolved: seq<string>): (r: set<string>)
    requires forall k :: 0 <= k < |resolved| ==> |resolved[k]| > 0
    ensures forall s :: s in r <==> s in resolved && s[0] != '*'
  {
    set k | 0 <= k < |resolved| && resolved[k][0] != '*' :: resolved[k]
  }

  class Listener {
    var typeDeclarationSet: set<string>
    var constructorDeclarationSet: set<string>
    var methodDeclarationSet: set<string>
    var superTypeNamesMap: map<string, set<string>>
    var nameToInternalTypeName: map<string, string>
    /** `sbTypeDeclaration`. */
    var typeDeclaration: string

    constructor ()
      ensures typeDeclarationSet == {} && constructorDeclarationSet == {} && methodDeclarationSet == {}
      ensures superTypeNamesMap == map[] && nameToInternalTypeName == map[] && typeDeclaration == ""
    {
      typeDeclarationSet, constructorDeclarationSet, methodDeclarationSet := {}, {}, {};
      superTypeNamesMap, nameToInternalTypeName, typeDeclaration := map[], map[], "";
    }

    /** `visit(PackageDeclaration)`: `handled` is what the base listener returns
        after recording `packageName`. A non-empty package name and a '/' are
        appended to the builder. */
    method VisitPackage(handled: bool, packageName: string) returns (visitChildren: bool)
      modifies this`typeDeclaration
      ensures visitChildren
      ensures handled && packageName != "" ==> typeDeclaration == old(typeDeclaration) + packageName + "/"
      ensures !(handled && packageName != "") ==> typeDeclaration == old(typeDeclaration)
    {
      if handled && packageName != "" {
        typeDeclaration := typeDeclaration + packageName + "/";
      }
      return true;
    }

    /** `enterTypeDeclaration`: extends the builder with the type's name and
        records the resulting internal name; `resolved` holds the resolved names
        of the super class (if any) and of the super interfaces. */
    method EnterTypeDeclaration(typeName: string, resolved: seq<string>) returns (visitChildren: bool)
      requires forall k :: 0 <= k < |resolved| ==> |resolved[k]| > 0
      modifies this`typeDeclaration, this`typeDeclarationSet, this`nameToInternalTypeName, this`superTypeNamesMap
      ensures visitChildren
      ensures typeDeclaration == Entered(old(typeDeclaration), typeName)
      ensures typeDeclarationSet == old(typeDeclarationSet) + {typeDeclaration}
      ensures nameToInternalTypeName == old(nameToInternalTypeName)[typeName := typeDeclaration]
      ensures KeptSuperTypes(resolved) != {} ==>
                superTypeNamesMap == old(superTypeNamesMap)[typeDeclaration := KeptSuperTypes(resolved)]
      ensures KeptSuperTypes(resolved) == {} ==> superTypeNamesMap == old(superTypeNamesMap)
    {
      ghost var before := typeDeclaration;
      if |typeDeclaration| == 0 || typeDeclaration[|typeDeclaration| - 1] == '/' {
        typeDeclaration := typeDeclaration + typeName;
      } else {
        typeDeclaration := typeDeclaration + "$" + typeName;
      }
      assert typeDeclaration == Entered(before, typeName);
      var internalTypeName := typeDeclaration;
      typeDeclarationSet := typeDeclarationSet + {internalTypeName};
      nameToInternalTypeName := nameToInternalTypeName[typeName := internalTypeName];

      var superInternalTypeNameSet: set<string> := {};
      for k := 0 to |resolved|
        invariant superInternalTypeNameSet == KeptSuperTypes(resolved[..k])
      {
        if resolved[k][0] != '*' {
          superInternalTypeNameSet := superInternalTypeNameSet + {resolved[k]};
        }
        assert resolved[..k + 1] == resolved[..k] + [resolved[k]];
      }
      assert resolved[..|resolved|] == resolved;
      if superInternalTypeNameSet != {} {
        superTypeNamesMap := superTypeNamesMap[internalTypeName := superInternalTypeNameSet];
      }
      return true;
    }

    /** `exitTypeDeclaration`: cuts the builder back to the enclosing type. */
    method ExitTypeDeclaration()
      modifies this`typeDeclaration
      ensures typeDeclaration == Exited(old(typeDeclaration))
    {
      var index := ExitLength(typeDeclaration);
      typeDeclaration := typeDeclaration[..index];
    }

    /** `visit(MethodDeclaration)`: constructors and methods go to separate sets. */
    method VisitMethodDeclaration(name: string, isConstructor: bool) returns (visitChildren: bool)
      modifies this`constructorDeclarationSet, this`methodDeclarationSet
      ensures visitChildren
      ensures isConstructor ==> constructorDeclarationSet == old(constructorDeclarationSet) + {name} &&
                                methodDeclarationSet == old(methodDeclarationSet)
      ensures !isConstructor ==> methodDeclarationSet == old(methodDeclarationSet) + {name} &&
                                 constructorDeclarationSet == old(constructorDeclarationSet)
    {
      if isConstructor {
        constructorDeclarationSet := constructorDeclarationSet + {name};
      } else {
        methodDeclarationSet := methodDeclarationSet + {name};
      }
      return true;
    }
  }

  // -- The sub-type index ------------------------------------------------------------ //

  /** `index.get(name)`: the sub types recorded so far, none for a new name. */
  function SubTypesOf(index: map<string, set<string>>, name: string): set<string> {
    if name in index then index[name] else {}
  }

  /** `t` declares `s` among its super types. */
  predicate DeclaresSuper(superTypeNamesMap: map<string, set<string>>, t: string, s: string) {
    t in superTypeNamesMap && s in superTypeNamesMap[t]
  }

  /** The loops at the end of `index`: every type is added under each of its
      super types. Afterwards `t` is listed under `s` exactly when it was before
      or `t` declares `s`. */
  method AddSubTypeNames(index: map<string, set<string>>, superTypeNamesMap: map<string, set<string>>)
    returns (result: map<string, set<string>>)
    ensures forall s, t :: t in SubTypesOf(result, s) <==>
              t in SubTypesOf(index, s) || DeclaresSuper(superTypeNamesMap, t, s)
  {
    result := index;
    var todo := superTypeNamesMap.Keys;
    while todo != {}
      invariant todo <= superTypeNamesMap.Keys
      invariant forall s, t :: t in SubTypesOf(result, s) <==>
                  t in SubTypesOf(index, s) || (DeclaresSuper(superTypeNamesMap, t, s) && t !in todo)
      decreases todo
    {
      var typeName :| typeName in todo;
      var before := result;
      result := AddUnderEach(result, typeName, superTypeNamesMap[typeName]);
      todo := todo - {typeName};
      forall s, t
        ensures t in SubTypesOf(result, s) <==>
                t in SubTypesOf(index, s) || (DeclaresSuper(superTypeNamesMap, t, s) && t !in todo)
      {
        assert t in SubTypesOf(result, s) <==>
               t in SubTypesOf(before, s) || (t == typeName && s in superTypeNamesMap[typeName]);
      }
    }
  }

  /** The inner loop: `typeName` added under each name of `superTypeNames`. */
  method AddUnderEach(index: map<string, set<string>>, typeName: string, superTypeNames: set<string>)
    returns (result: map<string, set<string>>)
    ensures forall s, t :: t in SubTypesOf(result, s) <==>
              t in SubTypesOf(index, s) || (t == typeName && s in superTypeNames)
  {
    result := index;
    var todo := superTypeNames;
    while todo != {}
      invariant todo <= superTypeNames
      invariant forall s, t :: t in SubTypesOf(result, s) <==>
                  t in SubTypesOf(index, s) || (t == typeName && s in superTypeNames && s !in todo)
      decreases todo
    {
      var superTypeName :| superTypeName in todo;
      result := result[superTypeName := SubTypesOf(result, superTypeName) + {typeName}];
      todo := todo - {superTypeName};
    }
  }
}
