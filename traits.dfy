/**
  The data of the icebreaker bingo generator: the trait pool loaded from the
  trait file and the fixed configuration (quotas per category, grid size,
  cell size).
 */
module Traits {

  /** One trait of a category: the key printed on a card and the description
      printed in the legend. */
  datatype Trait = Trait(key: string, description: string)

  /** A category is a mapping from keys to descriptions, kept as its entries
      in insertion order (the legend lists them in that order). */
  type Category = seq<Trait>

  /** A mapping never holds the same key twice. */
  predicate DistinctKeys(c: Category)
  {
    forall i, j :: 0 <= i < j < |c| ==> c[i].key != c[j].key
  }

  /** The keys of a category, in order. */
  function Keys(c: Category): (ks: seq<string>)
    ensures |ks| == |c|
    ensures forall i :: 0 <= i < |c| ==> ks[i] == c[i].key
  {
    if c == [] then [] else [c[0].key] + Keys(c[1..])
  }

  /** The pool: category name to category, as the trait file is loaded. */
  type Pool = map<string, Category>

  /** Every category of a loaded pool is a mapping, so its keys are distinct. */
  predicate WellFormed(pool: Pool)
  {
    forall name :: name in pool ==> DistinctKeys(pool[name])
  }

  /** The category names, in the fixed order in which they are checked,
      drawn from and listed. */
  const CategoryNames: seq<string> := ["easy", "medium", "hard"]

  /** The trait file names all three categories. */
  predicate HasCategories(pool: Pool)
  {
    "easy" in pool && "medium" in pool && "hard" in pool
  }

  /** The process-wide settings: traits drawn per category, rows (and
      columns) of the square grid, and the side of one cell in centimetres. */
  datatype Config = Config(nEasy: nat, nMedium: nat, nHard: nat, nRows: nat, cellSize: int)

  /** The settings the program ships with. */
  const Default: Config := Config(9, 13, 3, 5, 2)

  /** The quotas, aligned with CategoryNames. */
  function Quotas(cfg: Config): (q: seq<nat>)
    ensures |q| == |CategoryNames|
  {
    [cfg.nEasy, cfg.nMedium, cfg.nHard]
  }

  /** The number of traits one card draws. */
  function Total(cfg: Config): nat
  {
    cfg.nEasy + cfg.nHard + cfg.nMedium
  }

  /** The number of cells of one card. */
  function Cells(cfg: Config): nat
  {
    cfg.nRows * cfg.nRows
  }
}
