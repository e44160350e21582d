/**
  The two documents the program writes: the cards, one after another with a
  page break between consecutive cards, and the legend, one item per trait,
  category by category. `Run` is the program from start to finish: the
  validation, then the legend, then the cards.
 */
module Document {
  import opened Traits
  import opened Capacity
  import opened Draw
  import opened Layout

  /** A piece of the card document: one card, or a `\newpage` marker. */
  datatype Piece = CardPage(fragment: Fragment) | NewPage

  /** The number of `\newpage` markers in a document. */
  function PageBreaks(doc: seq<Piece>): nat
  {
    if doc == [] then 0
    else PageBreaks(doc[..|doc| - 1]) + (if doc[|doc| - 1].NewPage? then 1 else 0)
  }

  /** The number of cards in a document. */
  function CardCount(doc: seq<Piece>): nat
  {
    if doc == [] then 0
    else CardCount(doc[..|doc| - 1]) + (if doc[|doc| - 1].CardPage? then 1 else 0)
  }

  /** Cards at the even positions, markers at the odd ones: a document of
      `m` cards then has `m - 1` markers and ends with a card. */
  predicate Alternates(doc: seq<Piece>)
  {
    forall i :: 0 <= i < |doc| ==> (doc[i].NewPage? <==> i % 2 == 1)
  }

  lemma {:induction false} AlternatingCounts(doc: seq<Piece>)
    requires Alternates(doc) && |doc| % 2 == 1
    ensures CardCount(doc) == (|doc| + 1) / 2 && PageBreaks(doc) == (|doc| - 1) / 2
    ensures doc[|doc| - 1].CardPage?
    decreases |doc|
  {
    if |doc| > 1 {
      var shorter := doc[..|doc| - 2];
      assert Alternates(shorter);
      AlternatingCounts(shorter);
      assert doc[..|doc| - 1][..|doc| - 2] == shorter;
      assert doc[|doc| - 2].NewPage?;
    }
  }

  /** `create_bingo_card`: `n_cards` cards, each followed by `\newpage`
      except the last. A count of zero or less writes an empty document.
      Card `i` is laid out from the i-th draw. */
  method CreateBingoCard(cfg: Config, pool: Pool, nCards: int, oracles: seq<Oracle>) returns (doc: seq<Piece>)
    requires nCards <= |oracles|
    requires forall i :: 0 <= i < |oracles| ==> OracleFits(cfg, pool, oracles[i])
    requires Cells(cfg) <= Total(cfg)
    ensures nCards <= 0 ==> doc == []
    ensures nCards >= 1 ==> |doc| == 2 * nCards - 1 && doc[|doc| - 1].CardPage?
    ensures nCards >= 1 ==> CardCount(doc) == nCards && PageBreaks(doc) == nCards - 1
    ensures Alternates(doc)
    ensures forall i :: 0 <= i < nCards ==>
      doc[2 * i].CardPage? && doc[2 * i].fragment.cellSize == cfg.cellSize &&
      LaidOut(cfg, Card(cfg, pool, oracles[i]), doc[2 * i].fragment.cells)
  {
    doc := [];
    var i := 0;
    while i < nCards
      invariant 0 <= i <= if nCards < 0 then 0 else nCards
      invariant |doc| == if i == 0 then 0 else if i < nCards then 2 * i else 2 * i - 1
      invariant Alternates(doc)
      invariant forall j :: 0 <= j < i ==>
        doc[2 * j].CardPage? && doc[2 * j].fragment.cellSize == cfg.cellSize &&
        LaidOut(cfg, Card(cfg, pool, oracles[j]), doc[2 * j].fragment.cells)
    {
      var card := GenerateBingoCard(cfg, pool, oracles[i]);
      doc := doc + [CardPage(card)];
      if i < nCards - 1 {
        doc := doc + [NewPage];
      }
      i := i + 1;
    }
    if nCards >= 1 {
      AlternatingCounts(doc);
    }
  }

  // ---------------------------------------------------------------------------
  // The legend

  /** The legend of the first `k` categories: their traits, category after
      category, each category in its key order. A legend line shows a
      trait's key and description, so the legend is kept as the traits it
      lists. */
  function LegendUpTo(pool: Pool, k: nat): seq<Trait>
    requires k <= |CategoryNames|
    requires HasCategories(pool)
  {
    if k == 0 then [] else LegendUpTo(pool, k - 1) + pool[CategoryNames[k - 1]]
  }

  /** `create_traits_card`: for easy, medium and hard in turn, one line per
      key of the category, in the category's key order. */
  method CreateTraitsCard(pool: Pool) returns (legend: seq<Trait>)
    requires HasCategories(pool)
    ensures legend == LegendUpTo(pool, |CategoryNames|)
  {
    legend := [];
    for k := 0 to |CategoryNames|
      invariant legend == LegendUpTo(pool, k)
    {
      var category := pool[CategoryNames[k]];
      ghost var before := legend;
      for j := 0 to |category|
        invariant legend == before + category[..j]
      {
        assert category[..j + 1] == category[..j] + [category[j]];
        legend := legend + [Trait(category[j].key, category[j].description)];
      }
      assert category[..|category|] == category;
    }
  }

  /** The legend lists the traits of easy, then medium, then hard, each
      category in its key order: one line per trait, and no other line. */
  lemma LegendListsEveryTrait(pool: Pool)
    requires HasCategories(pool)
    ensures var e, m, h := pool["easy"], pool["medium"], pool["hard"];
            var legend := LegendUpTo(pool, |CategoryNames|);
            && legend == e + m + h
            && |legend| == |e| + |m| + |h|
            && forall t :: t in legend <==> t in e || t in m || t in h
  {
    var e, m, h := pool["easy"], pool["medium"], pool["hard"];
    assert LegendUpTo(pool, 1) == e;
    assert LegendUpTo(pool, 2) == e + m;
    assert LegendUpTo(pool, 3) == e + m + h;
  }

  // ---------------------------------------------------------------------------
  // The whole program

  /** What a successful run writes: the legend and the card document. */
  datatype Output = Output(legend: seq<Trait>, cards: seq<Piece>)

  /** A run either exits with status 1 and the validation's message, having
      written nothing, or writes both documents. */
  datatype RunResult = Exited(error: ValidationError) | Written(output: Output)

  /** The program: validate, then write the legend, then the cards. Nothing
      is written when the validation fails. */
  method Run(cfg: Config, pool: Pool, nCards: int, oracles: seq<Oracle>) returns (r: RunResult)
    requires WellFormed(pool)
    requires Validation(cfg, pool) == Pass ==>
      nCards <= |oracles| && forall i :: 0 <= i < |oracles| ==> OracleFits(cfg, pool, oracles[i])
    ensures r.Exited? <==> Validation(cfg, pool).Fail?
    ensures r.Exited? ==> r.error == Validation(cfg, pool).error
    ensures r.Written? ==> r.output.legend == LegendUpTo(pool, |CategoryNames|)
    ensures r.Written? ==> Alternates(r.output.cards)
    ensures r.Written? && nCards <= 0 ==> r.output.cards == []
    ensures r.Written? && nCards >= 1 ==> |r.output.cards| == 2 * nCards - 1
    ensures r.Written? && nCards >= 1 ==>
      CardCount(r.output.cards) == nCards && PageBreaks(r.output.cards) == nCards - 1
    ensures r.Written? ==> Cells(cfg) <= Total(cfg)
    ensures r.Written? ==> forall i :: 0 <= i < nCards ==>
      r.output.cards[2 * i].CardPage? && r.output.cards[2 * i].fragment.cellSize == cfg.cellSize &&
      LaidOut(cfg, Card(cfg, pool, oracles[i]), r.output.cards[2 * i].fragment.cells)
  {
    var outcome := Validate(cfg, pool);
    if outcome.Fail? {
      return Exited(outcome.error);
    }
    ValidationPasses(cfg, pool);
    var legend := CreateTraitsCard(pool);
    var cards := CreateBingoCard(cfg, pool, nCards, oracles);
    r := Written(Output(legend, cards));
  }
}
