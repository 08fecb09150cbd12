/** Row-major index arithmetic. */
module Indexing {

  type pos = n: nat | 0 < n witness 1

  lemma {:induction false} ProductGrows(a: nat, b: nat, c: nat)
    requires a <= b
    ensures a * c <= b * c
    decreases b
  {
    if a < b { ProductGrows(a, b - 1, c); }
  }

  /** Item `minor` of the `major`-th run of `size`. */
  function At(major: nat, size: nat, minor: nat): nat { major * size + minor }

  function Size(items: nat, lanes: nat): nat { items * lanes }

  lemma AtFits(major: nat, majors: nat, size: nat, minor: nat)
    requires major < majors && minor < size
    ensures At(major, size, minor) < majors * size && major * size + size <= majors * size
  {
    ProductGrows(major + 1, majors, size);
  }

  lemma AtInverse(major: nat, size: pos, minor: nat)
    requires minor < size
    ensures At(major, size, minor) / size == major && At(major, size, minor) % size == minor
  {
    var x := At(major, size, minor);
    if x / size < major {
      ProductGrows(x / size + 1, major, size);
    } else if x / size > major {
      ProductGrows(major + 1, x / size, size);
    }
  }

  lemma PlaneInRange(item: nat, majors: nat, size: pos)
    requires item < Size(majors, size)
    ensures item / size < majors && item % size < size
  {
    if item / size >= majors { ProductGrows(majors, item / size, size); }
  }

  lemma SliceOfSlice<T>(xs: seq<T>, from: nat, to: nat, at: nat, n: nat)
    requires from + at + n <= to <= |xs|
    ensures xs[from..to][at..at + n] == xs[from + at..from + at + n]
  {
    var a, b := xs[from..to][at..at + n], xs[from + at..from + at + n];
    forall k | 0 <= k < n ensures a[k] == b[k] { assert a[k] == xs[from..to][at + k]; }
  }
}
