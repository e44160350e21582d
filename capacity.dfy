/**
  The capacity check the program runs before anything is drawn: first the
  quotas against the number of cells, then each category, in the order easy,
  medium, hard, against its quota. Any failure ends the program with exit
  status 1 and a message; the message's data is the error value here.
 */
module Capacity {
  import opened Traits

  datatype ValidationError =
    | TooFewTraits(total: nat, cells: nat)                            // quotas add up to fewer than the cells
    | MissingCategory(category: string)                               // the trait file lacks the category
    | NotEnoughTraits(category: string, needed: nat, available: nat)  // fewer keys than the quota

  datatype Outcome = Pass | Fail(error: ValidationError)

  /** Category `name` exists and has at least `needed` keys. */
  predicate Sufficient(pool: Pool, name: string, needed: nat)
  {
    name in pool && |pool[name]| >= needed
  }

  /** The error reported for a category that is not sufficient. */
  function Shortfall(pool: Pool, name: string, needed: nat): ValidationError
  {
    if name !in pool then MissingCategory(name)
    else NotEnoughTraits(name, needed, |pool[name]|)
  }

  /** The per-category check from category `k` on: the first category that
      falls short fails. */
  function CheckFrom(cfg: Config, pool: Pool, k: nat): Outcome
    requires k <= |CategoryNames|
    decreases |CategoryNames| - k
  {
    if k == |CategoryNames| then Pass
    else if !Sufficient(pool, CategoryNames[k], Quotas(cfg)[k]) then
      Fail(Shortfall(pool, CategoryNames[k], Quotas(cfg)[k]))
    else CheckFrom(cfg, pool, k + 1)
  }

  /** The whole validation: the quota check, then the category checks. */
  function Validation(cfg: Config, pool: Pool): Outcome
  {
    if Total(cfg) < Cells(cfg) then Fail(TooFewTraits(Total(cfg), Cells(cfg)))
    else CheckFrom(cfg, pool, 0)
  }

  /** The check as the program runs it: an early exit on the quota, then a
      loop over the categories with an early exit. */
  method Validate(cfg: Config, pool: Pool) returns (r: Outcome)
    ensures r == Validation(cfg, pool)
  {
    if Total(cfg) < Cells(cfg) {
      return Fail(TooFewTraits(Total(cfg), Cells(cfg)));
    }
    var quotas := Quotas(cfg);
    for k := 0 to |CategoryNames|
      invariant CheckFrom(cfg, pool, k) == CheckFrom(cfg, pool, 0)
    {
      var name := CategoryNames[k];
      if name !in pool {
        return Fail(MissingCategory(name));
      }
      if |pool[name]| < quotas[k] {
        return Fail(NotEnoughTraits(name, quotas[k], |pool[name]|));
      }
    }
    return Pass;
  }

  /** Every category from `k` on is sufficient exactly when the check from
      `k` passes. */
  lemma {:induction false} CheckFromPasses(cfg: Config, pool: Pool, k: nat)
    requires k <= |CategoryNames|
    ensures CheckFrom(cfg, pool, k) == Pass <==>
      forall j :: k <= j < |CategoryNames| ==> Sufficient(pool, CategoryNames[j], Quotas(cfg)[j])
    decreases |CategoryNames| - k
  {
    if k < |CategoryNames| {
      CheckFromPasses(cfg, pool, k + 1);
    }
  }

  /** When every category before `k` is sufficient and `k` is not, the check
      from `i <= k` reports `k`. */
  lemma {:induction false} CheckFromFails(cfg: Config, pool: Pool, i: nat, k: nat)
    requires i <= k < |CategoryNames|
    requires forall j :: i <= j < k ==> Sufficient(pool, CategoryNames[j], Quotas(cfg)[j])
    requires !Sufficient(pool, CategoryNames[k], Quotas(cfg)[k])
    ensures CheckFrom(cfg, pool, i) == Fail(Shortfall(pool, CategoryNames[k], Quotas(cfg)[k]))
    decreases k - i
  {
    if i < k {
      CheckFromFails(cfg, pool, i + 1, k);
    }
  }

  /** Validation passes exactly when the quotas cover the cells and every
      category has at least its quota of keys. A total larger than the
      number of cells passes. */
  lemma ValidationPasses(cfg: Config, pool: Pool)
    ensures Validation(cfg, pool) == Pass <==>
      Total(cfg) >= Cells(cfg) &&
      forall k :: 0 <= k < |CategoryNames| ==> Sufficient(pool, CategoryNames[k], Quotas(cfg)[k])
  {
    CheckFromPasses(cfg, pool, 0);
  }

  /** The quota check fails exactly when the quotas add up to fewer traits
      than there are cells, and it comes before any category is consulted. */
  lemma QuotaRejects(cfg: Config, pool: Pool)
    ensures Total(cfg) < Cells(cfg) <==>
      Validation(cfg, pool).Fail? && Validation(cfg, pool).error.TooFewTraits?
    ensures Total(cfg) < Cells(cfg) ==>
      Validation(cfg, pool) == Fail(TooFewTraits(Total(cfg), Cells(cfg)))
  {
    if Total(cfg) >= Cells(cfg) {
      FailuresNameACategory(cfg, pool, 0);
    }
  }

  /** Every failure of the category checks names one of the categories. */
  lemma {:induction false} FailuresNameACategory(cfg: Config, pool: Pool, k: nat)
    requires k <= |CategoryNames|
    ensures CheckFrom(cfg, pool, k).Fail? ==> !CheckFrom(cfg, pool, k).error.TooFewTraits?
    decreases |CategoryNames| - k
  {
    if k < |CategoryNames| {
      FailuresNameACategory(cfg, pool, k + 1);
    }
  }

  /** When the quotas cover the cells, validation reports the first category,
      in the order easy, medium, hard, that is missing or short, with the
      number of keys needed and the number available. */
  lemma FirstShortCategoryReported(cfg: Config, pool: Pool, k: nat)
    requires Total(cfg) >= Cells(cfg)
    requires k < |CategoryNames|
    requires forall j :: 0 <= j < k ==> Sufficient(pool, CategoryNames[j], Quotas(cfg)[j])
    requires !Sufficient(pool, CategoryNames[k], Quotas(cfg)[k])
    ensures Validation(cfg, pool) == Fail(Shortfall(pool, CategoryNames[k], Quotas(cfg)[k]))
  {
    CheckFromFails(cfg, pool, 0, k);
  }

  /** Conversely, a failure that is not the quota check is the shortfall of
      some category all of whose predecessors are sufficient. */
  lemma {:induction false} FailureIsFirstShortCategory(cfg: Config, pool: Pool, i: nat)
    requires i <= |CategoryNames|
    requires CheckFrom(cfg, pool, i).Fail?
    requires forall j :: 0 <= j < i ==> Sufficient(pool, CategoryNames[j], Quotas(cfg)[j])
    ensures exists k :: (i <= k < |CategoryNames| &&
                         (forall j :: 0 <= j < k ==> Sufficient(pool, CategoryNames[j], Quotas(cfg)[j])) &&
                         !Sufficient(pool, CategoryNames[k], Quotas(cfg)[k]) &&
                         CheckFrom(cfg, pool, i).error == Shortfall(pool, CategoryNames[k], Quotas(cfg)[k]))
    decreases |CategoryNames| - i
  {
    if Sufficient(pool, CategoryNames[i], Quotas(cfg)[i]) {
      FailureIsFirstShortCategory(cfg, pool, i + 1);
    }
  }

  /** The same at the level of the whole validation: a failure that is not
      the quota check comes after the quota check passed, and reports the
      first category, in the order easy, medium, hard, that is missing or
      short. */
  lemma CategoryFailureIsFirstShort(cfg: Config, pool: Pool)
    requires Validation(cfg, pool).Fail? && !Validation(cfg, pool).error.TooFewTraits?
    ensures Total(cfg) >= Cells(cfg)
    ensures exists k :: (0 <= k < |CategoryNames| &&
                         (forall j :: 0 <= j < k ==> Sufficient(pool, CategoryNames[j], Quotas(cfg)[j])) &&
                         !Sufficient(pool, CategoryNames[k], Quotas(cfg)[k]) &&
                         Validation(cfg, pool).error == Shortfall(pool, CategoryNames[k], Quotas(cfg)[k]))
  {
    FailureIsFirstShortCategory(cfg, pool, 0);
  }

  /** The configuration the program ships with passes the quota check:
      9 + 13 + 3 traits fill the 25 cells of a 5 by 5 grid. */
  lemma DefaultQuotaFitsGrid(pool: Pool)
    ensures Total(Default) == Cells(Default) == 25
    ensures !Validation(Default, pool).Fail? || !Validation(Default, pool).error.TooFewTraits?
  {
    QuotaRejects(Default, pool);
  }

  /** An easy category of five traits fails against a quota of nine, even
      though medium and hard are also checked afterwards. */
  lemma ShortEasyReported(pool: Pool)
    requires "easy" in pool && |pool["easy"]| == 5
    ensures Validation(Default, pool) == Fail(NotEnoughTraits("easy", 9, 5))
  {
  }

  /** Quotas of 9, 12 and 3 cannot fill a 5 by 5 grid. */
  lemma ShortQuotaReported(pool: Pool)
    ensures Validation(Config(9, 12, 3, 5, 2), pool) == Fail(TooFewTraits(24, 25))
  {
  }
}
