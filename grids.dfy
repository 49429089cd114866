/** The `Grid` helpers: a grid is a sequence of rows; its width is the length
    of the first row, which is undefined (an error) for a grid with no rows. */
module Grids {
  import opened Wrappers

  type Grid<T> = seq<seq<T>>

  /** Every row as long as the first. */
  predicate Rectangular<T>(g: Grid<T>) {
    forall y | 0 <= y < |g| :: |g[y]| == |g[0]|
  }

  function Width<T>(g: Grid<T>): (r: Result<int>)
    ensures r.Err? <==> g == []
    ensures r.Ok? ==> r.value == |g[0]| >= 0
  {
    if g == [] then Err("Couldn't determine width without grid data") else Ok(|g[0]|)
  }

  function Height<T>(g: Grid<T>): (r: nat)
    ensures r == 0 <==> g == []
  {
    |g|
  }

  function Contains<T>(g: Grid<T>, x: int, y: int): (r: Result<bool>)
    ensures r.Err? <==> g == []
  {
    match Width(g)
    case Err(e) => Err(e)
    case Ok(w) => Ok(0 <= x < w && 0 <= y < Height(g))
  }

  /** On a rectangular grid, a contained position indexes a cell. */
  lemma ContainsIndexesCell<T>(g: Grid<T>, x: int, y: int)
    requires Rectangular(g)
    ensures Contains(g, x, y) == Ok(true) <==> 0 <= y < |g| && 0 <= x < |g[y]|
  {
  }
}
