/**
 * What the free functions of the library release (body_free, aux_free,
 * collision_package_free, force_free), reported as a sequence of events in
 * the order the C code releases them, and how often an event occurs in such
 * a sequence.
 */
module Releases {
  datatype ListRole = ConstantsList | BodiesList | ShapeList
  datatype Record = AuxRecord | PackageRecord | ForceRecord | BodyRecord

  /** One release performed by a free function. */
  datatype Release =
    | CellReleased(cell: object)
    | ListReleased(list: ListRole)
    | RecordReleased(record: Record)
    | HostFreerCalled(freer: nat)
    | InfoFreerCalled(info: nat)

  /** How many times `x` occurs in `r`. */
  function Occurrences(r: seq<Release>, x: Release): (n: nat)
    ensures n <= |r|
    ensures n == 0 <==> x !in r
  {
    if r == [] then 0 else Occurrences(r[..|r| - 1], x) + (if r[|r| - 1] == x then 1 else 0)
  }

  /** Occurrences add up over a concatenation. */
  lemma {:induction false} OccurrencesAppend(r1: seq<Release>, r2: seq<Release>, x: Release)
    ensures Occurrences(r1 + r2, x) == Occurrences(r1, x) + Occurrences(r2, x)
    decreases |r2|
  {
    if r2 != [] {
      var r2' := r2[..|r2| - 1];
      assert (r1 + r2)[..|r1 + r2| - 1] == r1 + r2';
      assert (r1 + r2)[|r1 + r2| - 1] == r2[|r2| - 1];
      OccurrencesAppend(r1, r2', x);
    } else {
      assert r1 + r2 == r1;
    }
  }

  /** The occurrences in three consecutive stretches of releases add up. */
  lemma OccurrencesAppend3(r1: seq<Release>, r2: seq<Release>, r3: seq<Release>, x: Release)
    ensures Occurrences(r1 + r2 + r3, x) == Occurrences(r1, x) + Occurrences(r2, x) + Occurrences(r3, x)
  {
    OccurrencesAppend(r1, r2, x);
    OccurrencesAppend(r1 + r2, r3, x);
  }
}
