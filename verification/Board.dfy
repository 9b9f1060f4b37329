/** Where a shape lies on the 4x4 board (lib/jeu.c, `afficher_grille` and `afficher_grille_predefinie`). */
module Board {
  import opened Shuffle

  /**
    The 1-based cell that shows `shape` when cell k shows `order[k]`, or -1. The painting loop overwrites
    its result at each match, so the last matching cell wins.
  */
  function PositionOf(shape: int, order: seq<int>): (p: int)
    ensures p == -1 || (1 <= p <= |order| && order[p - 1] == shape)
    ensures p == -1 <==> shape !in order
    ensures forall k :: 0 <= k < |order| && p <= k ==> order[k] != shape
  {
    if order == [] then -1
    else if order[|order| - 1] == shape then |order|
    else PositionOf(shape, order[..|order| - 1])
  }

  /** On a permutation the position exists, and it is the only cell with that shape. */
  lemma PositionOnPermutation(shape: int, order: seq<int>)
    requires IsPermutation(order, 16) && 0 <= shape < 16
    ensures 1 <= PositionOf(shape, order) <= 16
    ensures forall k :: 0 <= k < 16 ==> (order[k] == shape <==> k + 1 == PositionOf(shape, order))
  {
    PermutationIsReordering(order, 16);
    assert Identity(16)[shape] == shape;
    assert shape in multiset(Identity(16));
    assert shape in order;
    var p := PositionOf(shape, order);
    forall k | 0 <= k < 16 && k + 1 != p ensures order[k] != shape {
      if k < p - 1 { assert order[k] != order[p - 1]; } else { assert order[p - 1] != order[k]; }
    }
  }
}
