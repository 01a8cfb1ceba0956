/**
 * The contingency table as the object the evaluation code works with: a 2x2 array of
 * cells that is overwritten in place, and a cached total N that the constructor and
 * `Update` recompute. Every score query reads the current cells and the cached total
 * through the snapshot `State()`.
 */
module Evaluation {
  import opened Scores

  class ContingencyTable {
    /** The cells, row-major: [[a, b], [c, d]], forecast by row and event by column. */
    var table: array2<real>
    /** The cached sum of the cells. */
    var N: real

    /** The cell array is 2x2, as the constructor allocates it. */
    ghost predicate Shaped()
      reads this
    {
      table.Length0 == 2 && table.Length1 == 2
    }

    /** The sum of the four cells. */
    function Total(): real
      reads this, table
      requires Shaped()
    {
      table[0, 0] + table[0, 1] + table[1, 0] + table[1, 1]
    }

    /** The cached total agrees with the cells. */
    ghost predicate Valid()
      reads this, table
    {
      Shaped() && N == Total()
    }

    /** The current cells a, b, c, d and the cached total, as the score queries see them. */
    function State(): (s: Table)
      reads this, table
      requires Shaped()
      ensures s.Consistent() <==> Valid()
      ensures s.a + s.b + s.c + s.d == Total() && s.n == N
    {
      Table(table[0, 0], table[0, 1], table[1, 0], table[1, 1], N)
    }

    /** A new table with the cells a, b, c, d in a fresh 2x2 array, and their total. */
    constructor (a: real, b: real, c: real, d: real)
      ensures fresh(table)
      ensures Valid()
      ensures State() == Table(a, b, c, d, a + b + c + d)
    {
      var cells := new real[2, 2];
      cells[0, 0], cells[0, 1], cells[1, 0], cells[1, 1] := a, b, c, d;
      table := cells;
      N := cells[0, 0] + cells[0, 1] + cells[1, 0] + cells[1, 1];
    }

    /** Overwrites the cells of the same array, in row-major order, and recomputes the total.
        Whatever the cells and the total were before, the scores afterwards are those of
        a, b, c, d with their sum. */
    method Update(a: real, b: real, c: real, d: real)
      requires Shaped()
      modifies this, table
      ensures table == old(table)
      ensures Valid()
      ensures State() == Table(a, b, c, d, a + b + c + d)
    {
      table[0, 0], table[0, 1], table[1, 0], table[1, 1] := a, b, c, d;
      N := Total();
    }

    /** A score query looked up by its name and evaluated on the current state; a name that
        is no score query has no value. */
    function Query(name: string): (r: Option<Score>)
      reads this, table
      requires Shaped()
      ensures r.None? <==> forall k: ScoreName :: k.Name() != name
      ensures forall k: ScoreName :: k.Name() == name ==> r == Some(State().Eval(k))
    {
      match ParseName(name)
      case None => None
      case Some(k) => Some(State().Eval(k))
    }
  }

  /** The table with cells 1, 2, 3, 4, asked for its Peirce skill score by name. */
  method PeirceOfExample() returns (r: Option<Score>)
    ensures r == Some(Defined(-1.0 / 12.0))
  {
    var t := new ContingencyTable(1.0, 2.0, 3.0, 4.0);
    r := t.Query("pss");
  }
}
