/** The type values and initializer trees that declarator resolution works on. */
module GlslTypes {

  /** Marks an array dimension whose size was not written (`int a[]`).
      Any negative value serves: a count of initializers can never equal it. */
  const UndefinedSize: int := -1

  /** A resolved GLSL type.
      - Unknown is the sentinel returned when resolution cannot proceed.
      - Basic is a scalar, vector, matrix or struct type; `valid` is the
        type registry's verdict on it, taken as given.
      - Array is an element type with its dimensions, outermost first. */
  datatype GlslType =
    | Unknown
    | Basic(name: string, valid: bool)
    | Array(base: GlslType, dims: seq<int>)

  /** The registry's validity test: the sentinel is never valid, and an
      array is valid when its element type is. */
  predicate IsValidType(t: GlslType)
  {
    match t
    case Unknown => false
    case Basic(_, valid) => valid
    case Array(base, _) => IsValidType(base)
  }

  /** Array types are flat (their element type is not itself an array)
      and have at least one dimension. */
  predicate WellFormed(t: GlslType)
  {
    t.Array? ==> !t.base.Array? && |t.dims| > 0
  }

  /** The dimensions a type already carries: none for a non-array type. */
  function ExistingDims(t: GlslType): (r: seq<int>)
    ensures WellFormed(t) ==> (r == [] <==> !t.Array?)
  {
    if t.Array? then t.dims else []
  }

  /** The element type of an array, or the type itself. */
  function ElementType(t: GlslType): (r: GlslType)
    ensures WellFormed(t) ==> !r.Array?
  {
    if t.Array? then t.base else t
  }

  /** A storage, precision or interpolation keyword (`const`, `highp`, ...). */
  type Qualifier = string

  /** A type together with the qualifiers of its declaration. */
  datatype QualifiedType = QualifiedType(resolved: GlslType, qualifiers: seq<Qualifier>)

  /** An initializer: a single expression, or a brace list of initializers. */
  datatype Initializer =
    | Expr(text: string)
    | List(items: seq<Initializer>)
}
