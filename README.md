# Icebreaker bingo cards, modelled in Dafny

`bingo.py` makes "human bingo" cards for an icebreaker game. Each card is a
5 by 5 grid whose cells hold traits ("has a pet turtle"). The traits come
from three categories: easy, medium and hard. Per card the program draws 9
easy, 13 medium and 3 hard traits without replacement. It shuffles them and
lays them out row by row as TikZ markup. It also writes a legend that lists
every trait with its description.

This project models the logic under the I/O. It has five modules:

- `Traits` (`traits.dfy`) holds the data. A trait pool maps each category
  name to its entries in insertion order. `Config` holds the settings: the
  three quotas, the rows per side and the cell size. `Default` is the
  shipped configuration (9, 13, 3, 5, 2).
- `Capacity` (`capacity.dfy`) is the check that runs before anything is
  drawn. The quota check comes first. Then easy, medium and hard are each
  checked against their quota, with an early exit. The check is written
  twice: as the loop the program runs (`Validate`) and as a function
  (`Validation`). The lemmas are stated about the function.
- `Draw` (`draw.dfy`) is `select_random_categories`. The random source is
  passed in as an `Oracle`. For each category it gives the positions that
  `random.choice(..., replace=False)` picks. For the shuffle it gives a
  Fisher-Yates swap schedule. The shuffle runs in place on an array, as
  `np.random.shuffle` does.
- `Layout` (`layout.dfy`) is the row and column loops of
  `generate_latex_bingo_card`. Each grid cell becomes a `Cell`: the corner
  of its rectangle, its side and its text.
- `Document` (`document.dfy`) is `create_bingo_card`, `create_traits_card`
  and the whole run.

The model follows the code where the code differs from what one might expect:

- The quota check rejects only a total *smaller* than `n_rows²`
  (bingo.py:27). A larger total passes. The surplus traits are drawn but
  never shown, because the grid reads only the first `n_rows²` entries of
  the board (`Layout.GridShowsBoardPrefix`).
- The quota check happens before the trait file is read. A quota failure
  therefore wins over a missing category.
- A category missing from the trait file raises `KeyError` at
  bingo.py:35. Here that is the error `MissingCategory`.
- Nothing makes the three categories disjoint. A key present in two
  categories and drawn from both appears twice on one card
  (`Draw.SharedKeyCanRepeat`). When easy and medium share a key and both
  quotas are positive, some choices that validation admits do draw it from
  both (`Draw.SharedKeyRepeatsOnSomeCard`). Uniqueness is guaranteed when
  the categories are disjoint (`Draw.CardNoRepeatsWhenCategoriesDisjoint`).
- Legend lines are `key: description`. They are not qualified by their
  category.
- A card count of zero or less writes an empty card document, because
  `range` is then empty.

## Model

| member | source | states |
|---|---|---|
| `Capacity.Validate` | bingo.py:27-37 | the loop with early exits returns exactly the outcome of the validation function: quota check first, then the first short category |
| `Capacity.ValidationPasses` | bingo.py:27-37 | validation passes if and only if the quotas add up to at least `n_rows²` and every category exists with at least its quota of keys |
| `Capacity.QuotaRejects` | bingo.py:27-29 | validation fails with the quota error if and only if the total is smaller than `n_rows²`, and that error carries the total and the cell count; a larger total never draws the quota error |
| `Capacity.FirstShortCategoryReported` | bingo.py:34-37 | when the quotas cover the grid, the first category (easy, medium, hard) that is missing or short is reported, with the number needed and the number available |
| `Capacity.FailureIsFirstShortCategory` | bingo.py:34-37 | conversely, every category failure is the shortfall of some category whose predecessors all passed |
| `Capacity.CategoryFailureIsFirstShort` | bingo.py:27-37 | every validation failure other than the quota error happens after the quota check passed and reports the first category, in the order easy, medium, hard, that is missing or short |
| `Capacity.DefaultQuotaFitsGrid` | bingo.py:19-29 | the shipped quotas 9 + 13 + 3 equal the 25 cells of the 5 by 5 grid, so the quota check never fails with them |
| `Capacity.ShortEasyReported` | bingo.py:34-37 | an easy category of 5 keys against quota 9 fails with category easy, 9 needed, 5 available |
| `Capacity.ShortQuotaReported` | bingo.py:27-29 | quotas 9, 12 and 3 on a 5 by 5 grid fail the quota check with 24 against 25 |
| `Draw.DrawnWithoutRepeats` | bingo.py:42 | a draw without replacement from one category has its quota of keys, never the same key twice, and every key drawn is a key of that category |
| `Draw.DrawExists` | bingo.py:42 | a draw of `size` distinct entries out of `n` exists if and only if `size <= n` |
| `Draw.ValidationAdmitsOracle` | bingo.py:27-48 | validation passes if and only if the quotas cover the grid and choices for a whole card exist: a draw of its quota from every category and a shuffle schedule |
| `Draw.FullDrawTakesEveryKey` | bingo.py:42 | when a quota equals the category's size, the draw contains every key of the category |
| `Draw.FisherYatesPermutes` | bingo.py:46 | the shuffle keeps the length and the multiset of elements: it changes order, never contents |
| `Draw.Shuffle` | bingo.py:46 | shuffling in place leaves the array equal to the shuffle of its old contents and a permutation of them |
| `Draw.Card` | bingo.py:39-48 | a card has exactly `n_easy + n_medium + n_hard` traits |
| `Draw.SelectRandomCategories` | bingo.py:39-48 | the appended draws of easy, medium and hard, shuffled, give the card: length `n_easy + n_medium + n_hard`, same multiset as the concatenated draws |
| `Draw.CardIsShuffledDraw` | bingo.py:40-48 | the card is a permutation of the concatenation of the three per-category draws |
| `Draw.CardTraitsComeFromPool` | bingo.py:41-46 | every trait on a card is a key of one of the three categories |
| `Draw.CardNoRepeatsWhenCategoriesDisjoint` | bingo.py:39-48 | if no key belongs to two categories, no trait appears twice on a card |
| `Draw.SharedKeyCanRepeat` | bingo.py:34-48 | a key that is in both easy and medium, and is drawn from both, is on the card at least twice; validation looks only at category sizes, so it does not prevent this |
| `Draw.SharedKeyRepeatsOnSomeCard` | bingo.py:34-48 | when validation passes, both the easy and the medium quota are positive and a key is in both categories, some choices that fit the configuration put that key on the card twice |
| `Layout.BoardIndex` | bingo.py:61 | cell (row, col) reads an index below `n_rows²`, and dividing that index by `n_rows` gives back the row (quotient) and the column (remainder) |
| `Layout.CellOf` | bingo.py:59-61 | every board index below `n_rows²` is read by exactly one in-grid cell: the inverse of the row-major index |
| `Layout.OriginDeterminesCell` | bingo.py:62-65 | with a positive cell size, two cells have the same rectangle corner only if they are the same cell, and the corner divided by the cell size gives back the column and the row |
| `Layout.LayOutGrid` | bingo.py:59-66 | the nested loops emit `n_rows²` cells; cell (row, col) shows board entry `row*n_rows + col` in a square of side `cell_size` at `(col*cell_size, -row*cell_size)` |
| `Layout.GenerateBingoCard` | bingo.py:51-70 | a card's fragment declares the configured cell size and lays out the shuffled draw as above |
| `Layout.GridShowsBoardPrefix` | bingo.py:59-61 | the grid shows the first `n_rows²` board entries, each once, in board order |
| `Layout.CardShowsPoolTraits` | bingo.py:52-66 | every trait shown on a card is a key of one of the three categories |
| `Document.CreateBingoCard` | bingo.py:73-77 | for `n_cards >= 1` the document has `n_cards` cards and `n_cards - 1` page breaks, alternating and ending with a card; card `i` is the layout of the i-th draw; `n_cards <= 0` gives an empty document |
| `Document.AlternatingCounts` | bingo.py:75-77 | a document that alternates card, break, card, ... with an odd length has one more card than breaks and ends with a card |
| `Document.CreateTraitsCard` | bingo.py:82-86 | the nested loops produce the legend: the traits of easy, then medium, then hard, each category in its key order |
| `Document.LegendListsEveryTrait` | bingo.py:84-86 | the legend is the traits of easy, then of medium, then of hard, in key order: one line per trait with its key and description, and no other line |
| `Document.Run` | bingo.py:27-94 | a run exits with the validation's error and writes nothing exactly when validation fails; otherwise it writes the legend and a card document with `n_cards` cards and `n_cards - 1` page breaks, card `i` declaring the configured cell size and laying out the i-th draw |

## Left out

- Argument parsing (bingo.py:8-13): the card count is a parameter of `Run`.
  How `argparse` rejects a non-integer is not modelled.
- Reading `traits.yaml` (bingo.py:31-32): the pool is a parameter. Keys and
  descriptions are modelled as strings. `Document.Run` requires that no
  category lists a key twice, as holds for every loaded YAML mapping. A category whose value is not a
  mapping (an `AttributeError` at bingo.py:35) is not modelled.
- The printed messages (bingo.py:28, 36): their data is kept in the error
  values, not their wording.
- The uniform distribution of `random.choice` and `random.shuffle`: the
  choices are arguments (`Draw.Oracle`). Any distinct positions and any
  Fisher-Yates schedule are accepted.
- Draw.SelectRandomCategories: requires that every category's draw fits its
  category. The program only calls it after validation, and
  `Draw.ValidationAdmitsOracle` shows that such draws then exist. The `ValueError` that
  `random.choice` would raise otherwise is not modelled.
- The conversion to a numpy array (bingo.py:45): with string keys it
  changes nothing.
- The text labels' and the title's floating-point coordinates
  (bingo.py:66-67) and the fixed TikZ lines (bingo.py:53-57, 68-69): the
  model keeps the integer rectangle coordinates, the cell size and the cell
  text.
- The exact LaTeX text of cards, page breaks and legend lines: the model
  keeps their structure. That is one entry per cell, one marker per break
  and one item per key.
- File writes (bingo.py:78-79, 87-88), creating `build` (bingo.py:92) and
  the `lualatex` runs (bingo.py:80, 89): these are I/O and outside
  processes. The compiled file is not the written one, and that is not
  modelled either.
