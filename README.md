# GLSL declarator type resolution

A Dafny model of how the glsl4idea plugin resolves the type of one declared
name in a GLSL declaration such as `int[3] a[4], b[] = {1, 2};`
(`GLSLDeclarator`). Resolution merges the array dimensions of the shared type
specifier (`int[3]`) with the declarator's own `[n]` suffixes, declared
dimensions first, then infers the sizes of unsized dimensions (`[]`) from the
shape of a brace initializer list. The
model also covers the declarator's name, its rename failure and its qualified
type.

Files:

- `wrappers.dfy` — `Option` and `Result`, standing for nullable references
  and the thrown `IncorrectOperationException`.
- `types.dfy` — module `GlslTypes`: the type values (`Unknown` sentinel,
  basic types, flat array types with a dimension sequence), the undefined
  size marker, validity, qualified types and initializer trees.
- `clarification.dfy` — module `Clarification`: `clarifyArrayType`. The
  function `Clarified` specifies the walk over a dimension sequence;
  `LevelAt` gives the initializer list met at each depth along the
  first-child path, an independent description that `ClarifiedAt` proves
  equal to the walk. `ClarifyDims` is the source's loop on an `array<int>`,
  rewriting undefined entries in place and stopping with `break`.
- `declarator.dfy` — module `Declarators`: the declarator record, `getName`,
  `setName`, `getType` (the function `TypeOf` and the method `GetType`,
  which fills fresh dimension buffers with loops as the source does) and
  `getQualifiedType`.

Decisions:

- `UNDEFINED_SIZE_DIMENSION` is defined in `GLSLArrayType`, which is not part
  of this model. It is modelled as `-1`. The proofs only use that it is
  negative, so it never equals a count of initializers.
- `isValidType` is not part of this model. A basic type carries the type
  registry's verdict as a boolean. `Unknown` is never valid. An array type is
  taken to be valid when its element type is.
- Sizes of array specifiers (`GLSLArraySpecifier.getDimensionSize`) and the
  declared type (`GLSLTypeSpecifier.getType`) are given values in the
  declarator record.
- On the no-specifier path, the source clarifies the array returned by
  `getDimensions()` of the declared type. The model clarifies a fresh copy
  owned by the call (see "Left out").

## Model

| member | source | states |
|---|---|---|
| Declarators.Name | src/glslplugin/lang/elements/declarations/GLSLDeclarator.java:77-85 | the identifier's text when there is one, otherwise `"(anonymous)"` |
| Declarators.SetName | src/glslplugin/lang/elements/declarations/GLSLDeclarator.java:87-95 | fails exactly when there is no identifier, with "Declarator with no name!"; on success the declarator's name is the new name |
| Declarators.RenameKeepsType | src/glslplugin/lang/elements/declarations/GLSLDeclarator.java:87-95 | a rename succeeds on a named declarator and changes neither its declaration nor its resolved type |
| Declarators.MergedType | src/glslplugin/lang/elements/declarations/GLSLDeclarator.java:142-162 | before clarification: no specifiers give the declared type; otherwise an array over the declared element type whose dimensions are the declared ones followed by the specifier sizes in source order |
| Declarators.TypeOf | src/glslplugin/lang/elements/declarations/GLSLDeclarator.java:133-140 | the result is `Unknown` exactly when there is no parent declaration, no type specifier, or the declared type is not valid |
| Declarators.GetType | src/glslplugin/lang/elements/declarations/GLSLDeclarator.java:133-165 | the loops filling `combinedDimensions` and `dimensions` and the in-place clarification produce exactly `TypeOf` |
| Declarators.GetQualifiedType | src/glslplugin/lang/elements/declarations/GLSLDeclarator.java:167-173 | pairs the resolved type with no qualifiers when the declaration or its qualifier list is absent, and with the declaration's qualifiers otherwise |
| Declarators.TypeWithoutSpecifiers | src/glslplugin/lang/elements/declarations/GLSLDeclarator.java:143-144 | without array specifiers the type is the declared type clarified, which for a non-array declared type is the declared type itself |
| Declarators.TypeAppendsToDeclaredArray | src/glslplugin/lang/elements/declarations/GLSLDeclarator.java:147-156 | for a declared array and k specifiers: an array over the declared element type, with k more dimensions than declared, every explicit declared size at its index and every explicit specifier size after them in order |
| Declarators.TypeWrapsDeclaredType | src/glslplugin/lang/elements/declarations/GLSLDeclarator.java:157-162 | for a non-array declared type and k specifiers: an array over the declared type with exactly k dimensions, each explicit specifier size in order |
| Declarators.TypeWithoutInitializerList | src/glslplugin/lang/elements/declarations/GLSLDeclarator.java:146-162 | with specifiers and no initializer list, the dimensions are exactly the declared ones followed by the specifier sizes |
| Declarators.TypeWellFormed | src/glslplugin/lang/elements/declarations/GLSLDeclarator.java:147-162 | a flat declared type resolves to a flat type: an array result has a non-array element type and at least one dimension |
| Declarators.TypeStableUnderReclarification | src/glslplugin/lang/elements/declarations/GLSLDeclarator.java:143-144 | clarifying the resolved type again against the same initializer leaves it unchanged, so a repeated `getType` gives an equal type |
| Declarators.ExampleSizedByList | src/glslplugin/lang/elements/declarations/GLSLDeclarator.java:116-121 | `float a[] = {1, 2, 3}` resolves to `float[3]` |
| Declarators.ExampleNestedList | src/glslplugin/lang/elements/declarations/GLSLDeclarator.java:116-127 | `float a[][] = {{1, 2}, {3, 4}, {5, 6}}` resolves to `float[3][2]` |
| Declarators.ExampleAppendedDimensions | src/glslplugin/lang/elements/declarations/GLSLDeclarator.java:147-156 | `int[3] b[4]` resolves to dimensions `[3, 4]`, the declared dimension first |
| Clarification.Clarified | src/glslplugin/lang/elements/declarations/GLSLDeclarator.java:116-128 | clarification never changes the number of dimensions |
| Clarification.ClarifiedAt | src/glslplugin/lang/elements/declarations/GLSLDeclarator.java:116-127 | entry i after clarification is the initializer count of the list at depth i along the first-child path when the entry was undefined and the walk reaches depth i, and the old entry otherwise |
| Clarification.ClarifiedKeepsExplicit | src/glslplugin/lang/elements/declarations/GLSLDeclarator.java:118-121 | no entry other than an undefined one is changed |
| Clarification.ClarifiedBeyondWalk | src/glslplugin/lang/elements/declarations/GLSLDeclarator.java:122-127 | every entry at a depth the walk does not reach keeps its value, possibly still undefined |
| Clarification.LevelAtNext | src/glslplugin/lang/elements/declarations/GLSLDeclarator.java:122-124 | the walk descends one level exactly when the current list is non-empty and its first element is a list, into that first element |
| Clarification.ClarifiedIdempotent | src/glslplugin/lang/elements/declarations/GLSLDeclarator.java:116-121 | clarifying already clarified dimensions against the same list changes nothing |
| Clarification.ClarifiedExplicit | src/glslplugin/lang/elements/declarations/GLSLDeclarator.java:118-121 | dimensions without undefined entries are left as they are |
| Clarification.ClarifyType | src/glslplugin/lang/elements/declarations/GLSLDeclarator.java:106-130 | a non-array type, a missing initializer or an expression initializer give the type back unchanged; otherwise the result is an array with the same element type and number of dimensions, explicit sizes kept |
| Clarification.ClarifyTypeIdempotent | src/glslplugin/lang/elements/declarations/GLSLDeclarator.java:106-129 | clarifying a type twice gives the same type as clarifying it once |
| Clarification.ClarifyTypeExplicit | src/glslplugin/lang/elements/declarations/GLSLDeclarator.java:116-121 | an array type whose sizes are all explicit is unaffected by clarification |
| Clarification.ClarifyDims | src/glslplugin/lang/elements/declarations/GLSLDeclarator.java:115-128 | the in-place loop leaves the dimension array equal to `Clarified` of its old contents and changes no other array |
| Clarification.ClarifyArrayDims | src/glslplugin/lang/elements/declarations/GLSLDeclarator.java:108-129 | on an array type whose dimensions live in a buffer, returns that array type with the buffer's new contents, which equal `ClarifyType` of the old type |
| Clarification.ClarifyArrayType | src/glslplugin/lang/elements/declarations/GLSLDeclarator.java:106-129 | returns exactly `ClarifyType` of its argument |

## Left out

- IntelliJ tree navigation (`findChildByClass`, `findChildrenByClass`, `findParentByClass`, `getFirstChild`): the declarator is a record holding its optional identifier, optional parent declaration, specifier sizes and optional initializer, so `getNameIdentifier`, `getInitializer` and `getParentDeclaration` are field reads.
- `getInitializerExpression`, `toString` and `getTypename`: a thin child lookup and presentation text.
- `GLSLArraySpecifier.getDimensionSize`, `GLSLTypeSpecifier.getType` and `isValidType` are not part of this model; their results are given values, and array validity is assumed to follow the element type.
- SetName: the rename inside `GLSLIdentifier.setName` edits the host editor's tree and returns the new element; the model returns the declarator with the new identifier text and models only the failure when there is none.
- ClarifyArrayType: on the path without array specifiers the source writes the clarified sizes into whatever array the declared type's `getDimensions()` returns, which may be shared with sibling declarators of the same declaration; the model clarifies a fresh copy, so sharing between declarators is not captured.
- Clarified: counts are unbounded integers; Java `int` array lengths stay below 2^31, which a parsed initializer list cannot reach.
- Jagged initializer lists are not validated, as in the source: only the first child at each level is followed.
