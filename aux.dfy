/**
 * The argument record of the force creators (library/aux.c), and the heap
 * cells and release events shared by the force registration modules.
 *
 * aux_t is never changed after aux_init, so it is a value: aux_init is the
 * datatype constructor and aux_get_bodies / aux_get_constants are its field
 * selectors. The constants are heap doubles (`Cell`s), because the applied
 * force keeps the caller's own pointer and later writes through it are seen
 * by the creator. What aux_free releases is reported as a sequence of
 * `Release` events, in the order the C code releases them.
 */
module Auxes {
  import opened Options
  import opened Bodies
  import opened Releases

  /** A heap-allocated double. */
  class Cell {
    var value: real

    constructor Init(v: real)
      ensures value == v
    {
      value := v;
    }
  }

  /** aux_t: the constants list (NULL when absent) and the bodies list. */
  datatype Aux = Aux(constants: Option<seq<Cell>>, bodies: seq<Body>)

  /** The constants released by list_free with the `free` function: each element, in order. */
  function CellsReleased(cs: seq<Cell>): (r: seq<Release>)
    ensures |r| == |cs|
    ensures forall i :: 0 <= i < |cs| ==> r[i] == CellReleased(cs[i])
  {
    if cs == [] then [] else [CellReleased(cs[0])] + CellsReleased(cs[1..])
  }

  /**
   * aux_free: the constants list, when non-NULL, is freed together with its
   * elements; the bodies list (created without a free function) is freed
   * without its elements; then the record itself.
   */
  function AuxFree(a: Aux): (r: seq<Release>)
    ensures |r| >= 2 && r[|r| - 1] == RecordReleased(AuxRecord) && r[|r| - 2] == ListReleased(BodiesList)
    ensures ListReleased(BodiesList) !in r[..|r| - 2]
    ensures ListReleased(ConstantsList) in r <==> a.constants.Some?
    ensures a.constants.None? ==> |r| == 2
    ensures a.constants.Some? ==>
              && |r| == |a.constants.value| + 3
              && forall j :: 0 <= j < |a.constants.value| ==> r[j] == CellReleased(a.constants.value[j])
  {
    var constants := if a.constants.Some? then CellsReleased(a.constants.value) + [ListReleased(ConstantsList)] else [];
    constants + [ListReleased(BodiesList), RecordReleased(AuxRecord)]
  }
}
