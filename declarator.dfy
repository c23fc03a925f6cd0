/** One declared name of a GLSL declaration such as `int[3] a[4], b[] = {1, 2};`:
    its name, its effective type after merging the array dimensions of the
    shared type specifier with its own `[n]` suffixes and clarifying unsized
    dimensions from its initializer, and its qualified type. */
module Declarators {
  import opened Wrappers
  import opened GlslTypes
  import opened Clarification

  /** The declaration a declarator belongs to: the type its type specifier
      resolves to (absent in malformed code) and its qualifier list, if any. */
  datatype Declaration = Declaration(typeSpecifier: Option<GlslType>, qualifierList: Option<seq<Qualifier>>)

  /** A declarator: its name identifier (absent in malformed code), its
      enclosing declaration (absent when the tree is malformed), the sizes of
      its own array specifiers in source order (UndefinedSize for `[]`), and
      its initializer. */
  datatype Declarator = Declarator(
    nameIdentifier: Option<string>,
    parentDeclaration: Option<Declaration>,
    arraySpecifiers: seq<int>,
    initializer: Option<Initializer>)

  /** The name shown for a declarator without an identifier. */
  const AnonymousName: string := "(anonymous)"

  /** The message of the failure raised when renaming a nameless declarator. */
  const NoNameMessage: string := "Declarator with no name!"

  /** getName: the identifier's text, or the anonymous fallback. */
  function Name(d: Declarator): (r: string)
    ensures d.nameIdentifier.Some? ==> r == d.nameIdentifier.value
    ensures d.nameIdentifier.None? ==> r == AnonymousName
  {
    match d.nameIdentifier
    case Some(id) => id
    case None => AnonymousName
  }

  /** setName: renames the identifier; fails when there is none. */
  function SetName(d: Declarator, newName: string): (r: Result<Declarator, string>)
    ensures r.Failure? <==> d.nameIdentifier.None?
    ensures r.Failure? ==> r.error == NoNameMessage
    ensures r.Success? ==> Name(r.value) == newName
  {
    if d.nameIdentifier.Some? then Success(d.(nameIdentifier := Some(newName)))
    else Failure(NoNameMessage)
  }

  /** The type can be resolved: a parent declaration with a type specifier
      whose type is valid. */
  predicate Resolvable(d: Declarator)
  {
    && d.parentDeclaration.Some?
    && d.parentDeclaration.value.typeSpecifier.Some?
    && IsValidType(d.parentDeclaration.value.typeSpecifier.value)
  }

  /** The type written in the shared type specifier. */
  function DeclaredType(d: Declarator): (r: GlslType)
    requires d.parentDeclaration.Some? && d.parentDeclaration.value.typeSpecifier.Some?
  {
    d.parentDeclaration.value.typeSpecifier.value
  }

  /** The declared type with the declarator's own sizes appended, before
      clarification: no sizes leave it as it is; otherwise the result is an
      array over its element type whose dimensions are its existing ones
      followed by the sizes. */
  function MergedType(declared: GlslType, sizes: seq<int>): (r: GlslType)
    ensures sizes == [] ==> r == declared
    ensures sizes != [] ==> r.Array? && r.base == ElementType(declared)
    ensures sizes != [] ==> |r.dims| == |ExistingDims(declared)| + |sizes|
    ensures sizes != [] ==> r.dims[..|ExistingDims(declared)|] == ExistingDims(declared)
    ensures sizes != [] ==> r.dims[|ExistingDims(declared)|..] == sizes
  {
    if sizes == [] then declared
    else if declared.Array? then Array(declared.base, declared.dims + sizes)
    else Array(declared, sizes)
  }

  /** getType, as a value: Unknown exactly when the type cannot be resolved,
      otherwise the merged type clarified by the initializer. */
  function TypeOf(d: Declarator): (r: GlslType)
    ensures r == Unknown <==> !Resolvable(d)
  {
    if !Resolvable(d) then Unknown
    else ClarifyType(MergedType(DeclaredType(d), d.arraySpecifiers), d.initializer)
  }

  /** getType: fills a fresh dimension buffer from the declared array's
      dimensions and then the specifier sizes, and clarifies it in place. */
  method GetType(d: Declarator) returns (t: GlslType)
    ensures t == TypeOf(d)
  {
    if d.parentDeclaration.None? {
      return Unknown;
    }
    var declaration := d.parentDeclaration.value;
    if declaration.typeSpecifier.None? {
      return Unknown;
    }
    var declaredType := declaration.typeSpecifier.value;
    if !IsValidType(declaredType) {
      return Unknown;
    }
    var arraySpecifiers := d.arraySpecifiers;
    if |arraySpecifiers| == 0 {
      t := ClarifyArrayType(declaredType, d.initializer);
    } else if declaredType.Array? {
      var existingDimensions := declaredType.dims;
      var combinedDimensions := new int[|existingDimensions| + |arraySpecifiers|];
      var j := 0;
      while j < |existingDimensions|
        invariant 0 <= j <= |existingDimensions|
        invariant forall k :: 0 <= k < j ==> combinedDimensions[k] == existingDimensions[k]
      {
        combinedDimensions[j] := existingDimensions[j];
        j := j + 1;
      }
      var i := 0;
      while i < |arraySpecifiers|
        invariant 0 <= i <= |arraySpecifiers|
        invariant forall k :: 0 <= k < |existingDimensions| ==> combinedDimensions[k] == existingDimensions[k]
        invariant forall k :: 0 <= k < i ==> combinedDimensions[k + |existingDimensions|] == arraySpecifiers[k]
      {
        combinedDimensions[i + |existingDimensions|] := arraySpecifiers[i];
        i := i + 1;
      }
      assert combinedDimensions[..] == existingDimensions + arraySpecifiers;
      t := ClarifyArrayDims(declaredType.base, combinedDimensions, d.initializer);
    } else {
      var dimensions := new int[|arraySpecifiers|];
      var i := 0;
      while i < dimensions.Length
        invariant 0 <= i <= dimensions.Length
        invariant forall k :: 0 <= k < i ==> dimensions[k] == arraySpecifiers[k]
      {
        dimensions[i] := arraySpecifiers[i];
        i := i + 1;
      }
      assert dimensions[..] == arraySpecifiers;
      t := ClarifyArrayDims(declaredType, dimensions, d.initializer);
    }
  }

  /** getQualifiedType: the resolved type with the declaration's qualifiers,
      or with none when there is no declaration or no qualifier list. */
  method GetQualifiedType(d: Declarator) returns (q: QualifiedType)
    ensures q.resolved == TypeOf(d)
    ensures d.parentDeclaration.None? || d.parentDeclaration.value.qualifierList.None? ==> q.qualifiers == []
    ensures d.parentDeclaration.Some? && d.parentDeclaration.value.qualifierList.Some? ==>
              q.qualifiers == d.parentDeclaration.value.qualifierList.value
  {
    var t := GetType(d);
    var declaration := d.parentDeclaration;
    if declaration.None? || declaration.value.qualifierList.None? {
      return QualifiedType(t, []);
    }
    q := QualifiedType(t, declaration.value.qualifierList.value);
  }

  // Properties of the resolved type

  /** Without array specifiers the declarator's type is the declared type
      clarified; for a non-array declared type that is the declared type. */
  lemma TypeWithoutSpecifiers(d: Declarator)
    requires Resolvable(d) && d.arraySpecifiers == []
    ensures TypeOf(d) == ClarifyType(DeclaredType(d), d.initializer)
    ensures !DeclaredType(d).Array? ==> TypeOf(d) == DeclaredType(d)
  {
  }

  /** With k array specifiers on a declarator whose declared type is an
      array: the result is an array over the declared element type with the
      declared dimensions followed by k more; every entry that was not left
      unsized keeps the declared or specified size. */
  lemma TypeAppendsToDeclaredArray(d: Declarator)
    requires Resolvable(d) && DeclaredType(d).Array? && d.arraySpecifiers != []
    ensures TypeOf(d).Array?
    ensures TypeOf(d).base == DeclaredType(d).base
    ensures |TypeOf(d).dims| == |DeclaredType(d).dims| + |d.arraySpecifiers|
    ensures forall i :: 0 <= i < |DeclaredType(d).dims| && DeclaredType(d).dims[i] != UndefinedSize ==>
              TypeOf(d).dims[i] == DeclaredType(d).dims[i]
    ensures forall i :: 0 <= i < |d.arraySpecifiers| && d.arraySpecifiers[i] != UndefinedSize ==>
              TypeOf(d).dims[|DeclaredType(d).dims| + i] == d.arraySpecifiers[i]
  {
    var declared := DeclaredType(d);
    var merged := MergedType(declared, d.arraySpecifiers);
    assert merged.dims == declared.dims + d.arraySpecifiers;
    if d.initializer.Some? && d.initializer.value.List? {
      ClarifiedKeepsExplicit(merged.dims, d.initializer.value.items);
    }
  }

  /** With k array specifiers on a declarator whose declared type is not an
      array: the result is an array over the declared type with exactly k
      dimensions, each specified size kept. */
  lemma TypeWrapsDeclaredType(d: Declarator)
    requires Resolvable(d) && !DeclaredType(d).Array? && d.arraySpecifiers != []
    ensures TypeOf(d).Array?
    ensures TypeOf(d).base == DeclaredType(d)
    ensures |TypeOf(d).dims| == |d.arraySpecifiers|
    ensures forall i :: 0 <= i < |d.arraySpecifiers| && d.arraySpecifiers[i] != UndefinedSize ==>
              TypeOf(d).dims[i] == d.arraySpecifiers[i]
  {
    if d.initializer.Some? && d.initializer.value.List? {
      ClarifiedKeepsExplicit(d.arraySpecifiers, d.initializer.value.items);
    }
  }

  /** Without an initializer list the merged dimensions are the result:
      the declared dimensions followed by the specified sizes. */
  lemma TypeWithoutInitializerList(d: Declarator)
    requires Resolvable(d) && d.arraySpecifiers != []
    requires d.initializer.None? || d.initializer.value.Expr?
    ensures TypeOf(d) == Array(ElementType(DeclaredType(d)), ExistingDims(DeclaredType(d)) + d.arraySpecifiers)
  {
    var merged := MergedType(DeclaredType(d), d.arraySpecifiers);
    assert merged.dims == ExistingDims(DeclaredType(d)) + d.arraySpecifiers;
  }

  /** A flat declared type resolves to a flat type: an array result has a
      non-array element type and at least one dimension. */
  lemma TypeWellFormed(d: Declarator)
    requires Resolvable(d) && WellFormed(DeclaredType(d))
    ensures WellFormed(TypeOf(d))
  {
  }

  /** Resolving twice gives the same type: after the first run has written
      the clarified sizes into the declared dimensions, the second run sees
      no undefined entry it can still fill. */
  lemma TypeStableUnderReclarification(d: Declarator)
    requires Resolvable(d)
    ensures ClarifyType(TypeOf(d), d.initializer) == TypeOf(d)
  {
    ClarifyTypeIdempotent(MergedType(DeclaredType(d), d.arraySpecifiers), d.initializer);
  }

  /** Renaming keeps the type and the declaration. */
  lemma RenameKeepsType(d: Declarator, newName: string)
    requires d.nameIdentifier.Some?
    ensures SetName(d, newName).Success?
    ensures TypeOf(SetName(d, newName).value) == TypeOf(d)
    ensures SetName(d, newName).value.parentDeclaration == d.parentDeclaration
    ensures SetName(d, newName).value.arraySpecifiers == d.arraySpecifiers
    ensures SetName(d, newName).value.initializer == d.initializer
  {
  }

  // Worked examples of resolution

  /** `float a[] = {1, 2, 3};` declares `float[3]`. */
  lemma ExampleSizedByList()
    ensures TypeOf(Declarator(Some("a"), Some(Declaration(Some(Basic("float", true)), None)),
                              [UndefinedSize], Some(List([Expr("1"), Expr("2"), Expr("3")]))))
            == Array(Basic("float", true), [3])
  {
  }

  /** `float a[][] = {{1, 2}, {3, 4}, {5, 6}};` declares `float[3][2]`. */
  lemma ExampleNestedList()
    ensures TypeOf(Declarator(Some("a"), Some(Declaration(Some(Basic("float", true)), None)),
                              [UndefinedSize, UndefinedSize],
                              Some(List([List([Expr("1"), Expr("2")]), List([Expr("3"), Expr("4")]),
                                         List([Expr("5"), Expr("6")])]))))
            == Array(Basic("float", true), [3, 2])
  {
    var rows := [List([Expr("1"), Expr("2")]), List([Expr("3"), Expr("4")]), List([Expr("5"), Expr("6")])];
    assert [UndefinedSize, UndefinedSize][1..] == [UndefinedSize];
    assert Clarified([UndefinedSize], rows[0].items) == [2];
    assert Clarified([UndefinedSize, UndefinedSize], rows) == [3, 2];
  }

  /** `int[3] b[4];` resolves to dimensions `[3, 4]`: the declared
      dimensions come first and the declarator's own sizes after them. */
  lemma ExampleAppendedDimensions()
    ensures TypeOf(Declarator(Some("b"), Some(Declaration(Some(Array(Basic("int", true), [3])), None)),
                              [4], None))
            == Array(Basic("int", true), [3, 4])
  {
  }
}
