/** Inference of unsized array dimensions from the shape of a brace
    initializer list (`int a[][] = {{1, 2}, {3, 4}, {5, 6}};` gives `int[3][2]`). */
module Clarification {
  import opened Wrappers
  import opened GlslTypes

  /** The initializer list met at nesting depth `depth` when walking from
      `top` through first children; None once the walk has stopped, which
      happens at a level that is empty or whose first child is an expression. */
  function LevelAt(top: seq<Initializer>, depth: nat): (r: Option<seq<Initializer>>)
  {
    if depth == 0 then Some(top)
    else if |top| >= 1 && top[0].List? then LevelAt(top[0].items, depth - 1)
    else None
  }

  /** The dimensions after clarification against the top-level list `level`:
      each undefined entry the walk reaches becomes the initializer count at
      that depth. */
  function Clarified(dims: seq<int>, level: seq<Initializer>): (r: seq<int>)
    ensures |r| == |dims|
    decreases |dims|
  {
    if dims == [] then []
    else
      var head := if dims[0] == UndefinedSize then |level| else dims[0];
      if |level| >= 1 && level[0].List? then [head] + Clarified(dims[1..], level[0].items)
      else [head] + dims[1..]
  }

  /** clarifyArrayType on a type value: only an array type with a list
      initializer is changed, and then only in its dimensions. */
  function ClarifyType(t: GlslType, init: Option<Initializer>): (r: GlslType)
    ensures !t.Array? || init.None? || init.value.Expr? ==> r == t
    ensures r.Array? <==> t.Array?
    ensures r.Array? ==> r.base == t.base && |r.dims| == |t.dims|
    ensures r.Array? ==> forall i :: 0 <= i < |t.dims| && t.dims[i] != UndefinedSize ==> r.dims[i] == t.dims[i]
  {
    match (t, init)
    case (Array(base, dims), Some(List(items))) =>
      ClarifiedKeepsExplicit(dims, items);
      Array(base, Clarified(dims, items))
    case _ => t
  }

  /** Entry `i` of the clarified dimensions, stated without the walk: it is
      the count of the list at depth `i` along the first-child path when the
      entry was undefined and the walk reaches that depth, and is unchanged
      otherwise. */
  lemma {:induction false} ClarifiedAt(dims: seq<int>, level: seq<Initializer>, i: nat)
    requires i < |dims|
    ensures Clarified(dims, level)[i] ==
              if dims[i] == UndefinedSize && LevelAt(level, i).Some?
              then |LevelAt(level, i).value| else dims[i]
  {
    if i > 0 {
      if |level| >= 1 && level[0].List? {
        ClarifiedAt(dims[1..], level[0].items, i - 1);
      } else {
        NoLevelBeyond(level, i);
      }
    }
  }

  /** Clarification never changes an entry that was not undefined. */
  lemma ClarifiedKeepsExplicit(dims: seq<int>, level: seq<Initializer>)
    ensures forall i :: 0 <= i < |dims| && dims[i] != UndefinedSize ==> Clarified(dims, level)[i] == dims[i]
  {
    forall i | 0 <= i < |dims| && dims[i] != UndefinedSize
      ensures Clarified(dims, level)[i] == dims[i]
    {
      ClarifiedAt(dims, level, i);
    }
  }

  /** Once the walk has stopped it never resumes deeper down. */
  lemma {:induction false} NoLevelBeyond(level: seq<Initializer>, depth: nat)
    requires depth > 0
    requires !(|level| >= 1 && level[0].List?)
    ensures LevelAt(level, depth).None?
  {
  }

  /** Every entry at a depth the walk does not reach (`stop` and beyond)
      keeps its declared value, even when it is still undefined. The entry
      at the last level the walk reaches is still clarified. */
  lemma {:induction false} ClarifiedBeyondWalk(dims: seq<int>, level: seq<Initializer>, stop: nat)
    requires stop < |dims|
    requires LevelAt(level, stop).None?
    ensures Clarified(dims, level)[stop..] == dims[stop..]
  {
    forall j | stop <= j < |dims|
      ensures Clarified(dims, level)[j] == dims[j]
    {
      ClarifiedAt(dims, level, j);
      LevelStaysNone(level, stop, j);
    }
  }

  /** Once the walk has stopped at some depth, it stays stopped at every deeper one. */
  lemma {:induction false} LevelStaysNone(level: seq<Initializer>, stop: nat, depth: nat)
    requires stop <= depth
    requires LevelAt(level, stop).None?
    ensures LevelAt(level, depth).None?
  {
    if stop > 0 && |level| >= 1 && level[0].List? {
      LevelStaysNone(level[0].items, stop - 1, depth - 1);
    }
  }

  /** A second clarification against the same initializer changes nothing. */
  lemma {:induction false} ClarifiedIdempotent(dims: seq<int>, level: seq<Initializer>)
    ensures Clarified(Clarified(dims, level), level) == Clarified(dims, level)
  {
    if dims != [] && |level| >= 1 && level[0].List? {
      ClarifiedIdempotent(dims[1..], level[0].items);
      assert Clarified(dims, level)[1..] == Clarified(dims[1..], level[0].items);
    }
  }

  /** Dimensions that are all explicit are left alone. */
  lemma {:induction false} ClarifiedExplicit(dims: seq<int>, level: seq<Initializer>)
    requires forall i :: 0 <= i < |dims| ==> dims[i] != UndefinedSize
    ensures Clarified(dims, level) == dims
  {
    ClarifiedKeepsExplicit(dims, level);
  }

  /** clarifyArrayType is idempotent on type values: running it on its own
      result gives the same type. */
  lemma ClarifyTypeIdempotent(t: GlslType, init: Option<Initializer>)
    ensures ClarifyType(ClarifyType(t, init), init) == ClarifyType(t, init)
  {
    if t.Array? && init.Some? && init.value.List? {
      ClarifiedIdempotent(t.dims, init.value.items);
    }
  }

  /** An array type with only explicit sizes is unaffected by clarification. */
  lemma ClarifyTypeExplicit(t: GlslType, init: Option<Initializer>)
    requires t.Array? && forall i :: 0 <= i < |t.dims| ==> t.dims[i] != UndefinedSize
    ensures ClarifyType(t, init) == t
  {
    if init.Some? && init.value.List? {
      ClarifiedExplicit(t.dims, init.value.items);
    }
  }

  /** The walk goes one level deeper exactly through a list first child. */
  lemma {:induction false} LevelAtNext(top: seq<Initializer>, depth: nat, level: seq<Initializer>)
    requires LevelAt(top, depth) == Some(level)
    ensures LevelAt(top, depth + 1) ==
              if |level| >= 1 && level[0].List? then Some(level[0].items) else None
  {
    if depth > 0 {
      LevelAtNext(top[0].items, depth - 1, level);
    }
  }

  /** The loop of clarifyArrayType: walks `dims` outer to inner while
      descending through first children of the initializer list, writing each
      undefined entry it reaches in place. */
  method ClarifyDims(dims: array<int>, top: seq<Initializer>)
    modifies dims
    ensures dims[..] == Clarified(old(dims[..]), top)
  {
    ghost var orig := dims[..];
    ghost var target := Clarified(orig, top);
    var level := top;
    var i := 0;
    while i < dims.Length
      invariant 0 <= i <= dims.Length
      invariant LevelAt(top, i) == Some(level)
      invariant forall k :: 0 <= k < i ==> dims[k] == target[k]
      invariant forall k :: i <= k < dims.Length ==> dims[k] == orig[k]
    {
      var initializers := level;
      ClarifiedAt(orig, top, i);
      if dims[i] == UndefinedSize {
        dims[i] := |initializers|;
      }
      LevelAtNext(top, i, initializers);
      if |initializers| >= 1 && initializers[0].List? {
        level := initializers[0].items;
      } else {
        if i + 1 < dims.Length {
          ClarifiedBeyondWalk(orig, top, i + 1);
          assert forall k :: i + 1 <= k < dims.Length ==> target[k] == target[i + 1..][k - (i + 1)];
        }
        break;
      }
      i := i + 1;
    }
  }

  /** clarifyArrayType applied to an array type whose dimensions are held in
      `dims`: with a list initializer the dimensions are clarified in place,
      otherwise they are left alone; the same array type is returned. */
  method ClarifyArrayDims(base: GlslType, dims: array<int>, init: Option<Initializer>) returns (r: GlslType)
    modifies dims
    ensures r == Array(base, dims[..])
    ensures r == ClarifyType(Array(base, old(dims[..])), init)
  {
    if init.None? || !init.value.List? {
      return Array(base, dims[..]);
    }
    ClarifyDims(dims, init.value.items);
    r := Array(base, dims[..]);
  }

  /** clarifyArrayType: a non-array type is returned as it is; an array
      type is clarified on a fresh copy of its dimensions. */
  method ClarifyArrayType(t: GlslType, init: Option<Initializer>) returns (r: GlslType)
    ensures r == ClarifyType(t, init)
  {
    if !t.Array? {
      return t;
    }
    var dims := new int[|t.dims|](i requires 0 <= i < |t.dims| => t.dims[i]);
    assert dims[..] == t.dims;
    r := ClarifyArrayDims(t.base, dims, init);
  }
}
