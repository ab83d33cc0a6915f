/** Shared types of the viewer: optional values, sizes, screen positions and
    the saturating `usize` arithmetic the source relies on.

    Indices are `usize` in the source. They are modelled as `nat`; the largest
    `usize` value is `USIZE_MAX`, and the saturating operations of the source
    are written out with `SatAdd` / `SatSub`, except for three sums bounded
    by a length, which stay plain `+`. */
module Prelude {

  datatype Option<T> = None | Some(value: T)

  /** The largest value of a 64-bit `usize`. */
  const USIZE_MAX: nat := 0xFFFF_FFFF_FFFF_FFFF

  /** `usize::saturating_add`: the sum, or `USIZE_MAX` when the sum does not fit. */
  function SatAdd(a: nat, b: nat): (r: nat)
    ensures r <= a + b
    ensures r <= USIZE_MAX || r == a + b
    ensures a + b <= USIZE_MAX ==> r == a + b
    ensures a + b > USIZE_MAX ==> r == USIZE_MAX
  {
    if a + b <= USIZE_MAX then a + b else USIZE_MAX
  }

  /** `usize::saturating_sub`: the difference, or 0 when `b` exceeds `a`. */
  function SatSub(a: nat, b: nat): (r: nat)
    ensures r <= a
    ensures b <= a ==> r + b == a
    ensures a <= b ==> r == 0
  {
    if b <= a then a - b else 0
  }

  function Min(a: nat, b: nat): (r: nat)
    ensures r <= a && r <= b && (r == a || r == b)
  {
    if a <= b then a else b
  }

  function Max(a: nat, b: nat): (r: nat)
    ensures a <= r && b <= r && (r == a || r == b)
  {
    if a <= b then b else a
  }

  /** `usize::abs_diff`. */
  function AbsDiff(a: nat, b: nat): (r: nat)
    ensures a <= b ==> a + r == b
    ensures b <= a ==> b + r == a
  {
    if a <= b then b - a else a - b
  }

  /** `a` is obtained from `b` by deleting elements. */
  ghost predicate IsSubsequence<T>(a: seq<T>, b: seq<T>)
    decreases |b|
  {
    if a == [] then true
    else if b == [] then false
    else if a[|a| - 1] == b[|b| - 1] then IsSubsequence(a[..|a| - 1], b[..|b| - 1])
    else IsSubsequence(a, b[..|b| - 1])
  }

  /** The values of a 64-bit `usize`, for the places where the bound matters. */
  type USize = x: nat | x <= USIZE_MAX

  /** A terminal area in rows and columns. */
  datatype Size = Size(height: USize, width: USize)

  /** A screen position; `Position()` with both components 0 is the default. */
  datatype Position = Position(col: nat, row: nat)

  /** `Position::saturating_sub`: both components subtract independently,
      each one stopping at 0. */
  function SaturatingSub(a: Position, b: Position): (r: Position)
    ensures r.row <= a.row && r.col <= a.col
    ensures r.row == if b.row <= a.row then a.row - b.row else 0
    ensures r.col == if b.col <= a.col then a.col - b.col else 0
  {
    Position(col := SatSub(a.col, b.col), row := SatSub(a.row, b.row))
  }

  /** Subtracting a position from itself gives the origin. */
  lemma SaturatingSubSelf(p: Position)
    ensures SaturatingSub(p, p) == Position(0, 0)
  {
  }

  /** Subtracting the default position changes nothing. */
  lemma SaturatingSubOrigin(p: Position)
    ensures SaturatingSub(p, Position(0, 0)) == p
  {
  }

  /** The row of the result depends only on the rows, the column only on the columns. */
  lemma SaturatingSubComponentwise(a: Position, b: Position, a': Position, b': Position)
    ensures a.row == a'.row && b.row == b'.row ==> SaturatingSub(a, b).row == SaturatingSub(a', b').row
    ensures a.col == a'.col && b.col == b'.col ==> SaturatingSub(a, b).col == SaturatingSub(a', b').col
  {
  }
}
