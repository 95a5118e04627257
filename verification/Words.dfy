/** A 32-bit word as the set of positions of its ones: `|` is union, `&` is intersection and
    `& ~` is difference, so bit patterns can be reasoned about position by position. */
module Words {
  const WIDTH: nat := 32

  type Word = set<nat>

  predicate Fits(word: Word) {
    forall p <- word :: p < WIDTH
  }

  /** portGET_HIGHEST_PRIORITY: the position of the most significant one. */
  method GetHighest(word: Word) returns (top: nat)
    requires Fits(word) && word != {}
    ensures top in word && forall p <- word :: p <= top
  {
    top := WIDTH - 1;
    while top !in word
      invariant forall p <- word :: p <= top
      decreases top
    {
      top := top - 1;
    }
  }
}
