/**
  Drawing the traits of one card: per category, a quota of distinct keys is
  chosen without replacement; the draws are concatenated in the order easy,
  medium, hard and the result is shuffled in place.

  The random source is an argument (an Oracle): for each category the
  positions it chooses, and for the shuffle the swap partner of every
  position, as the Fisher-Yates shuffle consumes them.
 */
module Draw {
  import opened Traits
  import opened Capacity

  /** A draw without replacement of `size` entries out of `n`: the positions
      chosen, each in range, none twice. */
  predicate IsDraw(picks: seq<nat>, n: nat, size: nat)
  {
    && |picks| == size
    && (forall i :: 0 <= i < |picks| ==> picks[i] < n)
    && (forall i, j :: 0 <= i < j < |picks| ==> picks[i] != picks[j])
  }

  /** A swap schedule for shuffling `n` elements the Fisher-Yates way:
      position `i` is exchanged with a position at or before it. */
  predicate IsSwapSchedule(swaps: seq<nat>, n: nat)
  {
    |swaps| == n && forall i :: 0 <= i < n ==> swaps[i] <= i
  }

  /** The random choices behind one card. */
  datatype Oracle = Oracle(picks: seq<seq<nat>>, swaps: seq<nat>)

  /** The choices fit the pool and the configuration: one draw per category,
      of that category's quota, and a schedule for the whole card. */
  predicate OracleFits(cfg: Config, pool: Pool, o: Oracle)
  {
    && |o.picks| == |CategoryNames|
    && (forall k :: 0 <= k < |CategoryNames| ==>
          CategoryNames[k] in pool && IsDraw(o.picks[k], |pool[CategoryNames[k]]|, Quotas(cfg)[k]))
    && IsSwapSchedule(o.swaps, Total(cfg))
  }

  /** The keys of category `c` at the chosen positions. */
  function Drawn(c: Category, picks: seq<nat>): (ks: seq<string>)
    requires forall i :: 0 <= i < |picks| ==> picks[i] < |c|
  {
    if picks == [] then [] else [c[picks[0]].key] + Drawn(c, picks[1..])
  }

  /** The concatenation of the draws of the first `k` categories. */
  function ChosenUpTo(cfg: Config, pool: Pool, o: Oracle, k: nat): seq<string>
    requires OracleFits(cfg, pool, o) && k <= |CategoryNames|
  {
    if k == 0 then []
    else ChosenUpTo(cfg, pool, o, k - 1) + Drawn(pool[CategoryNames[k - 1]], o.picks[k - 1])
  }

  /** The traits of one card before the shuffle. */
  function Chosen(cfg: Config, pool: Pool, o: Oracle): seq<string>
    requires OracleFits(cfg, pool, o)
  {
    ChosenUpTo(cfg, pool, o, |CategoryNames|)
  }

  /** `s` with the elements at `i` and `j` exchanged. */
  function Swap<T>(s: seq<T>, i: nat, j: nat): seq<T>
    requires i < |s| && j < |s|
  {
    s[i := s[j]][j := s[i]]
  }

  /** The Fisher-Yates shuffle of `s` for positions `k - 1` down to 1. */
  function FisherYates<T>(s: seq<T>, swaps: seq<nat>, k: nat): seq<T>
    requires IsSwapSchedule(swaps, |s|) && k <= |s|
    decreases k
  {
    if k <= 1 then s else FisherYates(Swap(s, k - 1, swaps[k - 1]), swaps, k - 1)
  }

  /** The traits of one card, in grid order: `n_easy + n_medium + n_hard`
      of them. */
  function Card(cfg: Config, pool: Pool, o: Oracle): (card: seq<string>)
    requires OracleFits(cfg, pool, o)
    ensures |card| == Total(cfg)
  {
    var chosen := Chosen(cfg, pool, o);
    ChosenLength(cfg, pool, o, |CategoryNames|);
    FisherYatesPermutes(chosen, o.swaps, |chosen|);
    FisherYates(chosen, o.swaps, |chosen|)
  }

  // ---------------------------------------------------------------------------
  // The draw of one category

  /** A draw has its quota of keys, each a key of its category. */
  lemma {:induction false} DrawnKeys(c: Category, picks: seq<nat>)
    requires forall i :: 0 <= i < |picks| ==> picks[i] < |c|
    ensures |Drawn(c, picks)| == |picks|
    ensures forall i :: 0 <= i < |picks| ==> Drawn(c, picks)[i] == c[picks[i]].key
  {
    if picks != [] {
      DrawnKeys(c, picks[1..]);
    }
  }

  /** Drawing without replacement from a mapping never yields a key twice,
      and every key drawn belongs to the category. */
  lemma DrawnWithoutRepeats(c: Category, picks: seq<nat>, size: nat)
    requires DistinctKeys(c) && IsDraw(picks, |c|, size)
    ensures |Drawn(c, picks)| == size
    ensures forall i, j :: 0 <= i < j < size ==> Drawn(c, picks)[i] != Drawn(c, picks)[j]
    ensures forall i :: 0 <= i < size ==> Drawn(c, picks)[i] in Keys(c)
  {
    DrawnKeys(c, picks);
    forall i, j | 0 <= i < j < size ensures Drawn(c, picks)[i] != Drawn(c, picks)[j] {
      if picks[i] < picks[j] {
        assert c[picks[i]].key != c[picks[j]].key;
      } else {
        assert c[picks[j]].key != c[picks[i]].key;
      }
    }
    forall i | 0 <= i < size ensures Drawn(c, picks)[i] in Keys(c) {
      assert Keys(c)[picks[i]] == Drawn(c, picks)[i];
    }
  }

  /** The positions below `n`. */
  function Range(n: nat): set<nat>
  {
    if n == 0 then {} else Range(n - 1) + {n - 1}
  }

  /** `Range(n)` holds exactly the `n` positions below `n`. */
  lemma {:induction false} RangeHolds(n: nat)
    ensures forall x: nat :: x in Range(n) <==> x < n
    ensures |Range(n)| == n
  {
    if n > 0 {
      RangeHolds(n - 1);
    }
  }

  /** The positions of a draw, as a set. */
  function PickSet(picks: seq<nat>): set<nat>
  {
    set i | 0 <= i < |picks| :: picks[i]
  }

  /** Positions chosen without replacement form a set as large as the draw. */
  lemma {:induction false} PickSetSize(picks: seq<nat>)
    requires forall i, j :: 0 <= i < j < |picks| ==> picks[i] != picks[j]
    ensures |PickSet(picks)| == |picks|
  {
    if picks != [] {
      var rest := picks[1..];
      PickSetSize(rest);
      assert PickSet(picks) == PickSet(rest) + {picks[0]} by {
        forall x | x in PickSet(picks) ensures x in PickSet(rest) + {picks[0]} {
          var i :| 0 <= i < |picks| && picks[i] == x;
          if i > 0 { assert rest[i - 1] == x; }
        }
        forall x | x in PickSet(rest) ensures x in PickSet(picks) {
          var i :| 0 <= i < |rest| && rest[i] == x;
          assert picks[i + 1] == x;
        }
      }
      assert picks[0] !in PickSet(rest) by {
        forall i | 0 <= i < |rest| ensures rest[i] != picks[0] {
          assert rest[i] == picks[i + 1];
        }
      }
    }
  }

  /** A subset is no larger than its superset, and a proper subset is
      strictly smaller. */
  lemma {:induction false} SubsetSize(a: set<nat>, b: set<nat>)
    requires a <= b
    ensures |a| <= |b|
    ensures a != b ==> |a| < |b|
    decreases b
  {
    if a != {} {
      var x :| x in a;
      assert a != b ==> a - {x} != b - {x} by {
        if a != b {
          var y :| y in b && y !in a;
          assert y in b - {x};
        }
      }
      SubsetSize(a - {x}, b - {x});
    } else if b != {} {
      var y :| y in b;
    }
  }

  /** A draw without replacement never asks for more than there is. */
  lemma DrawFits(picks: seq<nat>, n: nat, size: nat)
    requires IsDraw(picks, n, size)
    ensures size <= n
  {
    PickSetSize(picks);
    RangeHolds(n);
    assert PickSet(picks) <= Range(n);
    SubsetSize(PickSet(picks), Range(n));
  }

  /** A draw without replacement of `size` out of `n` exists exactly when
      `size <= n`: `random.choice` with `replace=False` fails otherwise. */
  lemma DrawExists(n: nat, size: nat)
    ensures size <= n <==> exists picks :: IsDraw(picks, n, size)
  {
    if size <= n {
      var picks := seq(size, i requires 0 <= i < size => i as nat);
      assert IsDraw(picks, n, size);
    }
    if exists picks :: IsDraw(picks, n, size) {
      var picks :| IsDraw(picks, n, size);
      DrawFits(picks, n, size);
    }
  }

  /** The first `size` positions, in order. */
  function FirstPositions(size: nat): (picks: seq<nat>)
    ensures |picks| == size && forall i :: 0 <= i < size ==> picks[i] == i
  {
    seq(size, i requires 0 <= i < size => i as nat)
  }

  /** A draw of `size` out of `n` positions that includes position `p`. */
  function DrawIncluding(n: nat, size: nat, p: nat): (picks: seq<nat>)
    requires p < n && 1 <= size <= n
    ensures IsDraw(picks, n, size) && p in picks
  {
    if p < size then
      assert FirstPositions(size)[p] == p;
      FirstPositions(size)
    else
      var picks := seq(size, i requires 0 <= i < size => if i == 0 then p else i as nat);
      assert picks[0] == p;
      picks
  }

  /** Validation passes exactly when the quotas cover the grid and random
      choices for a whole card can be made: a draw of its quota from every
      category and a shuffle schedule. */
  lemma ValidationAdmitsOracle(cfg: Config, pool: Pool)
    ensures Validation(cfg, pool) == Pass <==>
      Total(cfg) >= Cells(cfg) && exists o :: OracleFits(cfg, pool, o)
  {
    ValidationPasses(cfg, pool);
    if Validation(cfg, pool) == Pass {
      var picks := seq(|CategoryNames|, k requires 0 <= k < |CategoryNames| => FirstPositions(Quotas(cfg)[k]));
      var swaps := seq(Total(cfg), i requires 0 <= i < Total(cfg) => 0 as nat);
      var o := Oracle(picks, swaps);
      assert forall k :: 0 <= k < |CategoryNames| ==>
        IsDraw(picks[k], |pool[CategoryNames[k]]|, Quotas(cfg)[k]);
      assert OracleFits(cfg, pool, o);
    }
    if Total(cfg) >= Cells(cfg) && exists o :: OracleFits(cfg, pool, o) {
      var o :| OracleFits(cfg, pool, o);
      forall k | 0 <= k < |CategoryNames|
        ensures Sufficient(pool, CategoryNames[k], Quotas(cfg)[k])
      {
        DrawFits(o.picks[k], |pool[CategoryNames[k]]|, Quotas(cfg)[k]);
      }
    }
  }

  /** A draw whose quota is the whole category takes every key of it: with
      quotas equal to the category sizes, a card holds every trait. */
  lemma FullDrawTakesEveryKey(c: Category, picks: seq<nat>)
    requires IsDraw(picks, |c|, |c|)
    ensures forall k :: k in Keys(c) ==> k in Drawn(c, picks)
  {
    PickSetSize(picks);
    RangeHolds(|c|);
    assert PickSet(picks) <= Range(|c|);
    SubsetSize(PickSet(picks), Range(|c|));
    assert PickSet(picks) == Range(|c|);
    DrawnKeys(c, picks);
    forall k | k in Keys(c) ensures k in Drawn(c, picks) {
      var p :| 0 <= p < |c| && Keys(c)[p] == k;
      assert p in Range(|c|);
      var i :| 0 <= i < |picks| && picks[i] == p;
      assert Drawn(c, picks)[i] == k;
    }
  }

  // ---------------------------------------------------------------------------
  // The concatenation and the shuffle

  /** The first `k` draws together hold the first `k` quotas. */
  lemma {:induction false} ChosenLength(cfg: Config, pool: Pool, o: Oracle, k: nat)
    requires OracleFits(cfg, pool, o) && k <= |CategoryNames|
    ensures |ChosenUpTo(cfg, pool, o, k)| ==
      if k == 0 then 0 else if k == 1 then cfg.nEasy else if k == 2 then cfg.nEasy + cfg.nMedium
      else Total(cfg)
  {
    if k > 0 {
      ChosenLength(cfg, pool, o, k - 1);
      DrawnKeys(pool[CategoryNames[k - 1]], o.picks[k - 1]);
    }
  }

  /** Exchanging two elements keeps the multiset of elements. */
  lemma SwapPermutes<T>(s: seq<T>, i: nat, j: nat)
    requires i < |s| && j < |s|
    ensures |Swap(s, i, j)| == |s| && multiset(Swap(s, i, j)) == multiset(s)
  {
    var t := s[i := s[j]];
    assert multiset(t) == multiset(s) - multiset{s[i]} + multiset{s[j]};
    assert multiset(t[j := s[i]]) == multiset(t) - multiset{t[j]} + multiset{s[i]};
  }

  /** The shuffle only reorders: same length, same multiset of elements. */
  lemma {:induction false} FisherYatesPermutes<T>(s: seq<T>, swaps: seq<nat>, k: nat)
    requires IsSwapSchedule(swaps, |s|) && k <= |s|
    ensures |FisherYates(s, swaps, k)| == |s|
    ensures multiset(FisherYates(s, swaps, k)) == multiset(s)
    decreases k
  {
    if k > 1 {
      SwapPermutes(s, k - 1, swaps[k - 1]);
      FisherYatesPermutes(Swap(s, k - 1, swaps[k - 1]), swaps, k - 1);
    }
  }

  /** The card has exactly `n_easy + n_medium + n_hard` traits and is a
      permutation of the concatenated draws. */
  lemma CardIsShuffledDraw(cfg: Config, pool: Pool, o: Oracle)
    requires OracleFits(cfg, pool, o)
    ensures |Card(cfg, pool, o)| == Total(cfg)
    ensures multiset(Card(cfg, pool, o)) == multiset(Chosen(cfg, pool, o))
  {
    ChosenLength(cfg, pool, o, |CategoryNames|);
    var chosen := Chosen(cfg, pool, o);
    FisherYatesPermutes(chosen, o.swaps, |chosen|);
  }

  /** Every trait on the card was drawn from one of the three categories. */
  lemma CardTraitsComeFromPool(cfg: Config, pool: Pool, o: Oracle)
    requires OracleFits(cfg, pool, o)
    ensures forall t :: t in Card(cfg, pool, o) ==>
      exists k :: 0 <= k < |CategoryNames| && t in Keys(pool[CategoryNames[k]])
  {
    CardIsShuffledDraw(cfg, pool, o);
    forall t | t in Card(cfg, pool, o)
      ensures exists k :: 0 <= k < |CategoryNames| && t in Keys(pool[CategoryNames[k]])
    {
      assert t in multiset(Card(cfg, pool, o));
      ChosenFromPool(cfg, pool, o, |CategoryNames|, t);
    }
  }

  lemma {:induction false} ChosenFromPool(cfg: Config, pool: Pool, o: Oracle, k: nat, t: string)
    requires OracleFits(cfg, pool, o) && k <= |CategoryNames|
    requires t in ChosenUpTo(cfg, pool, o, k)
    ensures exists m :: 0 <= m < k && t in Keys(pool[CategoryNames[m]])
  {
    var c := pool[CategoryNames[k - 1]];
    var d := Drawn(c, o.picks[k - 1]);
    if t in d {
      DrawnKeys(c, o.picks[k - 1]);
      var i :| 0 <= i < |d| && d[i] == t;
      assert Keys(c)[o.picks[k - 1][i]] == t;
    } else {
      ChosenFromPool(cfg, pool, o, k - 1, t);
    }
  }

  // ---------------------------------------------------------------------------
  // The program's steps

  /** `np.random.shuffle`: the Fisher-Yates shuffle in place, exchanging
      position `i` with `swaps[i]` for `i` from the last position down to 1. */
  method Shuffle<T>(a: array<T>, swaps: seq<nat>)
    requires IsSwapSchedule(swaps, a.Length)
    modifies a
    ensures a[..] == FisherYates(old(a[..]), swaps, a.Length)
    ensures multiset(a[..]) == multiset(old(a[..]))
  {
    var i := a.Length;
    while i > 1
      invariant 0 <= i <= a.Length
      invariant FisherYates(a[..], swaps, i) == FisherYates(old(a[..]), swaps, a.Length)
    {
      i := i - 1;
      var j := swaps[i];
      ghost var before := a[..];
      var t := a[i];
      a[i] := a[j];
      a[j] := t;
      assert a[..] == Swap(before, i, j);
    }
    FisherYatesPermutes(old(a[..]), swaps, a.Length);
  }

  /** `select_random_categories`: the draws of easy, medium and hard are
      appended in that order, then the whole is shuffled in place. The card
      has exactly `n_easy + n_medium + n_hard` traits and holds exactly the
      drawn traits, in shuffled order. */
  method SelectRandomCategories(cfg: Config, pool: Pool, o: Oracle) returns (card: seq<string>)
    requires OracleFits(cfg, pool, o)
    ensures card == Card(cfg, pool, o)
    ensures |card| == Total(cfg)
    ensures multiset(card) == multiset(Chosen(cfg, pool, o))
  {
    var chosen: seq<string> := [];
    for k := 0 to |CategoryNames|
      invariant chosen == ChosenUpTo(cfg, pool, o, k)
    {
      chosen := chosen + Drawn(pool[CategoryNames[k]], o.picks[k]);
    }
    ChosenLength(cfg, pool, o, |CategoryNames|);
    var a := new string[|chosen|](i requires 0 <= i < |chosen| => chosen[i]);
    assert a[..] == chosen;
    Shuffle(a, o.swaps);
    card := a[..];
    CardIsShuffledDraw(cfg, pool, o);
  }

  // ---------------------------------------------------------------------------
  // Uniqueness across categories

  /** No element occurs twice. */
  predicate NoRepeats(s: seq<string>)
  {
    forall i, j :: 0 <= i < j < |s| ==> s[i] != s[j]
  }

  /** No key belongs to two of the three categories. */
  predicate CategoriesDisjoint(pool: Pool)
  {
    forall k, m, t ::
      (0 <= k < m < |CategoryNames| && CategoryNames[k] in pool && CategoryNames[m] in pool &&
       t in Keys(pool[CategoryNames[k]])) ==> t !in Keys(pool[CategoryNames[m]])
  }

  lemma SwapKeepsNoRepeats(s: seq<string>, i: nat, j: nat)
    requires i < |s| && j < |s| && NoRepeats(s)
    ensures NoRepeats(Swap(s, i, j))
  {
    var r := Swap(s, i, j);
    forall p, q | 0 <= p < q < |r| ensures r[p] != r[q] {
      var sp := if p == i then j else if p == j then i else p;
      var sq := if q == i then j else if q == j then i else q;
      assert r[p] == s[sp] && r[q] == s[sq];
      if sp < sq { assert s[sp] != s[sq]; } else { assert s[sq] != s[sp]; }
    }
  }

  lemma {:induction false} FisherYatesKeepsNoRepeats(s: seq<string>, swaps: seq<nat>, k: nat)
    requires IsSwapSchedule(swaps, |s|) && k <= |s| && NoRepeats(s)
    ensures NoRepeats(FisherYates(s, swaps, k))
    decreases k
  {
    if k > 1 {
      SwapKeepsNoRepeats(s, k - 1, swaps[k - 1]);
      FisherYatesKeepsNoRepeats(Swap(s, k - 1, swaps[k - 1]), swaps, k - 1);
    }
  }

  lemma {:induction false} ChosenUpToNoRepeats(cfg: Config, pool: Pool, o: Oracle, k: nat)
    requires WellFormed(pool) && OracleFits(cfg, pool, o) && CategoriesDisjoint(pool)
    requires k <= |CategoryNames|
    ensures NoRepeats(ChosenUpTo(cfg, pool, o, k))
  {
    if k > 0 {
      ChosenUpToNoRepeats(cfg, pool, o, k - 1);
      var front := ChosenUpTo(cfg, pool, o, k - 1);
      var c := pool[CategoryNames[k - 1]];
      var d := Drawn(c, o.picks[k - 1]);
      DrawnWithoutRepeats(c, o.picks[k - 1], Quotas(cfg)[k - 1]);
      var r := front + d;
      forall p, q | 0 <= p < q < |r| ensures r[p] != r[q] {
        if q < |front| {
          assert r[p] == front[p] && r[q] == front[q];
        } else if p >= |front| {
          assert r[p] == d[p - |front|] && r[q] == d[q - |front|];
        } else {
          assert r[p] == front[p] && r[q] == d[q - |front|];
          assert front[p] in front;
          ChosenFromPool(cfg, pool, o, k - 1, front[p]);
          var m :| 0 <= m < k - 1 && front[p] in Keys(pool[CategoryNames[m]]);
          assert d[q - |front|] in Keys(c);
        }
      }
    }
  }

  /** The code does not require the categories to be disjoint; when they
      are, no trait appears twice on a card. */
  lemma CardNoRepeatsWhenCategoriesDisjoint(cfg: Config, pool: Pool, o: Oracle)
    requires WellFormed(pool) && OracleFits(cfg, pool, o) && CategoriesDisjoint(pool)
    ensures NoRepeats(Card(cfg, pool, o))
  {
    ChosenUpToNoRepeats(cfg, pool, o, |CategoryNames|);
    var chosen := Chosen(cfg, pool, o);
    ChosenLength(cfg, pool, o, |CategoryNames|);
    FisherYatesKeepsNoRepeats(chosen, o.swaps, |chosen|);
  }

  /** The validation looks only at the sizes of the categories, so nothing
      stops a key from being in both easy and medium. A key drawn from both
      is on the card twice. */
  lemma SharedKeyCanRepeat(cfg: Config, pool: Pool, o: Oracle, t: string, i: nat, j: nat)
    requires OracleFits(cfg, pool, o)
    requires i < |o.picks[0]| && pool[CategoryNames[0]][o.picks[0][i]].key == t
    requires j < |o.picks[1]| && pool[CategoryNames[1]][o.picks[1][j]].key == t
    ensures multiset(Card(cfg, pool, o))[t] >= 2
  {
    var easy := Drawn(pool[CategoryNames[0]], o.picks[0]);
    var medium := Drawn(pool[CategoryNames[1]], o.picks[1]);
    var hard := Drawn(pool[CategoryNames[2]], o.picks[2]);
    DrawnKeys(pool[CategoryNames[0]], o.picks[0]);
    DrawnKeys(pool[CategoryNames[1]], o.picks[1]);
    assert easy[i] == t && medium[j] == t;
    assert ChosenUpTo(cfg, pool, o, 1) == easy;
    assert ChosenUpTo(cfg, pool, o, 2) == easy + medium;
    assert Chosen(cfg, pool, o) == easy + medium + hard;
    assert multiset(easy)[t] >= 1 && multiset(medium)[t] >= 1;
    CardIsShuffledDraw(cfg, pool, o);
  }

  /** Validation does not prevent repeats: when easy and medium share a key
      and both quotas are positive, some choices that validation admits put
      the key on the card twice. */
  lemma SharedKeyRepeatsOnSomeCard(cfg: Config, pool: Pool, t: string)
    requires Validation(cfg, pool) == Pass
    requires cfg.nEasy >= 1 && cfg.nMedium >= 1
    requires "easy" in pool && "medium" in pool
    requires t in Keys(pool["easy"]) && t in Keys(pool["medium"])
    ensures exists o :: OracleFits(cfg, pool, o) && multiset(Card(cfg, pool, o))[t] >= 2
  {
    ValidationPasses(cfg, pool);
    var e, m := pool["easy"], pool["medium"];
    assert Sufficient(pool, CategoryNames[0], Quotas(cfg)[0]);
    assert Sufficient(pool, CategoryNames[1], Quotas(cfg)[1]);
    assert Sufficient(pool, CategoryNames[2], Quotas(cfg)[2]);
    var p :| 0 <= p < |e| && Keys(e)[p] == t;
    var q :| 0 <= q < |m| && Keys(m)[q] == t;
    var pe := DrawIncluding(|e|, cfg.nEasy, p);
    var pm := DrawIncluding(|m|, cfg.nMedium, q);
    var swaps := seq(Total(cfg), i requires 0 <= i < Total(cfg) => 0 as nat);
    var o := Oracle([pe, pm, FirstPositions(cfg.nHard)], swaps);
    assert OracleFits(cfg, pool, o);
    var i :| 0 <= i < |pe| && pe[i] == p;
    var j :| 0 <= j < |pm| && pm[j] == q;
    SharedKeyCanRepeat(cfg, pool, o, t, i, j);
  }
}
