# Contingency-table verification scores, in Dafny

This project models the 2x2 forecast-verification contingency table of hagelslag's
evaluation package, and proves what its fifteen scores promise.

    Event:         Yes  No
    Forecast Yes    a    b
    Forecast No     c    d

The four cells are a (hits), b (false alarms), c (misses) and d (correct negatives).
The object keeps them in a 2x2 array, row-major, together with a cached total `N`.
The constructor fills a fresh array and computes `N`. `update` overwrites all four cells
of the same array and recomputes `N`. Every score except the equitable threat score is
one unguarded division. Accuracy divides by the cached `N`, and the other scores divide
by sums and products of cells. The equitable threat score divides twice: first the chance
hits r = (a+b)(a+c)/N by the cached `N`, then a − r by a + b + c − r. Either division
can leave it without a value.

Files:

- `scores.dfy` (module `Scores`) holds the pure part:
  - `Score` is either `Defined(value)` or `Undefined`. `Undefined` stands for the nan or
    inf that floating-point division by zero gives; numpy float64 division warns and
    does not raise, so no score ever fails.
  - `Ratio` is that unguarded division.
  - `Table(a, b, c, d, n)` is a snapshot of the cells and the cached total. The fifteen
    score queries are its member functions, written as the source writes them.
  - `ScoreName` lists the fifteen query names, with a lookup by name.
- `fractions.dfy` (module `Fractions`) holds facts about real products and about
  `Ratio`, stated over plain reals.
- `score_properties.dfy` (module `ScoreProperties`) holds what the scores promise about
  each other:
  - complementary proportions;
  - ranges;
  - the equitable threat score in closed form, and when it is defined;
  - Heidke's score as a function of the equitable threat score;
  - Peirce's and Clayton's scores as differences of simpler ratios;
  - their symmetries;
  - the worked example table.
- `contingency_table.dfy` (module `Evaluation`) holds the mutable object:
  - the class `ContingencyTable`, with the `array2<real>` cells and the field `N`;
  - its constructor and `Update`;
  - `State()`, the snapshot every query reads;
  - `Query`, which looks a score up by name the way the demo block does with `getattr`;
  - the demo itself.

The fifteen score queries are member functions of the `Table` datatype and read no heap
at all. The object answers through `ContingencyTable.State` and `ContingencyTable.Query`,
which read only the cell array and `N`. Asking a score therefore changes nothing, and two
calls on the same state give the same value.

Arithmetic is exact (`real`). The formulas are rational, and every property below is
algebraic.

Heidke's score does not change when both yes/no labels are swapped,
hss(a,b,c,d) = hss(d,c,b,a) (`HssRelabelInvariant`), nor when the table is transposed
(`HssTransposeInvariant`). The Peirce skill score
is likewise invariant under the relabelling (`PssRelabelInvariant`). Transposed, it
becomes Clayton's score (`PssTransposeIsCss`).

## Model

| member | source | states |
|---|---|---|
| `Scores.Ratio` | hagelslag/evaluation/ContingencyTable.py:22 | undefined exactly when the divisor is zero, never an error; otherwise value × divisor = numerator, and a non-negative numerator no larger than a positive divisor gives a value in [0, 1] |
| `Scores.ParseName` | hagelslag/evaluation/ContingencyTable.py:98-101 | a name selects the one score query that carries it, and no query when no score has that name |
| `Scores.Table.Pod` | hagelslag/evaluation/ContingencyTable.py:19-22 | a/(a+c) has a value iff a+c ≠ 0; for non-negative cells it lies in [0, 1] |
| `Scores.Table.Foh` | hagelslag/evaluation/ContingencyTable.py:24-27 | a/(a+b) has a value iff a+b ≠ 0; in [0, 1] for non-negative cells |
| `Scores.Table.Far` | hagelslag/evaluation/ContingencyTable.py:29-32 | b/(a+b) has a value iff a+b ≠ 0; in [0, 1] for non-negative cells |
| `Scores.Table.Pofd` | hagelslag/evaluation/ContingencyTable.py:34-37 | b/(b+d) has a value iff b+d ≠ 0; in [0, 1] for non-negative cells |
| `Scores.Table.Fom` | hagelslag/evaluation/ContingencyTable.py:39-42 | c/(a+c) has a value iff a+c ≠ 0; in [0, 1] for non-negative cells |
| `Scores.Table.Dfr` | hagelslag/evaluation/ContingencyTable.py:44-47 | c/(c+d) has a value iff c+d ≠ 0; in [0, 1] for non-negative cells |
| `Scores.Table.Pon` | hagelslag/evaluation/ContingencyTable.py:49-52 | d/(b+d) has a value iff b+d ≠ 0; in [0, 1] for non-negative cells |
| `Scores.Table.Focn` | hagelslag/evaluation/ContingencyTable.py:54-57 | d/(c+d) has a value iff c+d ≠ 0; in [0, 1] for non-negative cells |
| `Scores.Table.Bias` | hagelslag/evaluation/ContingencyTable.py:59-61 | (a+b)/(a+c) has a value iff a+c ≠ 0; non-negative for non-negative cells |
| `Scores.Table.Accuracy` | hagelslag/evaluation/ContingencyTable.py:63-65 | (a+d)/N divides by the cached total: no value exactly when N = 0; in [0, 1] when the cells are non-negative and N is their sum |
| `Scores.Table.Csi` | hagelslag/evaluation/ContingencyTable.py:67-69 | a/(a+b+c) has a value iff a+b+c ≠ 0; in [0, 1] for non-negative cells |
| `Scores.Table.ChanceHits` | hagelslag/evaluation/ContingencyTable.py:73 | the chance hits (a+b)(a+c)/N have a value exactly when the cached total is non-zero |
| `Scores.Table.Ets` | hagelslag/evaluation/ContingencyTable.py:71-74 | no value when N = 0; otherwise a value exactly when a+b+c minus the chance hits is non-zero |
| `Scores.Table.Hss` | hagelslag/evaluation/ContingencyTable.py:76-80 | has a value iff (a+b)(b+d)+(a+c)(c+d) ≠ 0 |
| `Scores.Table.Pss` | hagelslag/evaluation/ContingencyTable.py:82-85 | has a value iff both a+c and b+d are non-zero |
| `Scores.Table.Css` | hagelslag/evaluation/ContingencyTable.py:87-90 | has a value iff both a+b and c+d are non-zero |
| `ScoreProperties.PodFomComplement` | hagelslag/evaluation/ContingencyTable.py:19-42 | pod and fom are defined together, and pod + fom = 1 |
| `ScoreProperties.FohFarComplement` | hagelslag/evaluation/ContingencyTable.py:24-32 | foh and far are defined together, and foh + far = 1 |
| `ScoreProperties.PofdPonComplement` | hagelslag/evaluation/ContingencyTable.py:34-52 | pofd and pon are defined together, and pofd + pon = 1 |
| `ScoreProperties.DfrFocnComplement` | hagelslag/evaluation/ContingencyTable.py:44-57 | dfr and focn are defined together, and dfr + focn = 1 |
| `ScoreProperties.BiasOneIff` | hagelslag/evaluation/ContingencyTable.py:59-61 | when a+c ≠ 0, bias is exactly 1 iff b = c (the forecast says yes as often as the event happens) |
| `ScoreProperties.BiasIsPodOverFoh` | hagelslag/evaluation/ContingencyTable.py:19-61 | with a hit and both divisors non-zero, bias = pod / foh |
| `ScoreProperties.CsiFromPodAndFoh` | hagelslag/evaluation/ContingencyTable.py:67-69 | with a hit, 1/csi = 1/pod + 1/foh − 1 |
| `ScoreProperties.AccuracyInUnitInterval` | hagelslag/evaluation/ContingencyTable.py:63-65 | for non-negative cells and a positive consistent N, accuracy has a value in [0, 1] |
| `ScoreProperties.CsiInUnitInterval` | hagelslag/evaluation/ContingencyTable.py:67-69 | for non-negative cells with a+b+c > 0, csi has a value in [0, 1] |
| `ScoreProperties.EtsRatio` | hagelslag/evaluation/ContingencyTable.py:73-74 | once the chance hits h satisfy h·(a+b+c+d) = (a+b)(a+c), (a−h)/(a+b+c−h) equals (ad−bc)/(b(a+b+c+d)+c(a+c+d)+ad) |
| `ScoreProperties.EtsClosedForm` | hagelslag/evaluation/ContingencyTable.py:71-74 | when N is the cell sum and non-zero, ets = (ad−bc)/(b(a+b+c+d)+c(a+c+d)+ad): the cached total cancels out |
| `ScoreProperties.EtsDivisorZeroIff` | hagelslag/evaluation/ContingencyTable.py:74 | for non-negative cells the closed-form ets divisor is non-negative, and zero iff b = c = 0 and ad = 0 |
| `ScoreProperties.EtsDefinedIff` | hagelslag/evaluation/ContingencyTable.py:71-74 | for non-negative cells and a consistent N, ets has a value iff N ≠ 0 and the table has a false alarm, a miss, or both hits and correct negatives |
| `ScoreProperties.EtsRatioRange` | hagelslag/evaluation/ContingencyTable.py:71-74 | for non-negative cells the closed-form ets fraction, where defined, lies in [−1/3, 1] |
| `ScoreProperties.EtsRange` | hagelslag/evaluation/ContingencyTable.py:71-74 | for non-negative cells and a consistent N, a defined ets lies in [−1/3, 1] |
| `ScoreProperties.HssDivisor` | hagelslag/evaluation/ContingencyTable.py:79-80 | the Heidke divisor equals the closed-form ets divisor plus ad−bc |
| `ScoreProperties.HssRatioRange` | hagelslag/evaluation/ContingencyTable.py:76-80 | for non-negative cells the Heidke fraction, where defined, lies in [−1, 1] |
| `ScoreProperties.HssRange` | hagelslag/evaluation/ContingencyTable.py:76-80 | for non-negative cells, a defined hss lies in [−1, 1] |
| `ScoreProperties.HssRatioFromEts` | hagelslag/evaluation/ContingencyTable.py:71-80 | where the closed-form ets fraction has value v, 1+v ≠ 0 and the Heidke fraction is 2v/(1+v) |
| `ScoreProperties.HssFromEtsValue` | hagelslag/evaluation/ContingencyTable.py:76-80 | for non-negative cells, where the closed-form ets fraction has value v, hss = 2v/(1+v) |
| `ScoreProperties.HssFromEts` | hagelslag/evaluation/ContingencyTable.py:71-80 | for non-negative cells and a consistent N, a defined ets gives hss = 2·ets/(1+ets) |
| `ScoreProperties.PssIsPodMinusPofd` | hagelslag/evaluation/ContingencyTable.py:82-85 | where both divisors are non-zero, pss = pod − pofd |
| `ScoreProperties.CssIsFohMinusDfr` | hagelslag/evaluation/ContingencyTable.py:87-90 | where both divisors are non-zero, css = foh − dfr |
| `ScoreProperties.PssCssRange` | hagelslag/evaluation/ContingencyTable.py:82-90 | for non-negative cells, defined pss and css lie in [−1, 1] |
| `ScoreProperties.HssRelabelInvariant` | hagelslag/evaluation/ContingencyTable.py:76-80 | hss of (d, c, b, a) equals hss of (a, b, c, d), defined or not |
| `ScoreProperties.HssTransposeInvariant` | hagelslag/evaluation/ContingencyTable.py:76-80 | hss of the transposed table (a, c, b, d) equals hss of (a, b, c, d) |
| `ScoreProperties.PssRelabelInvariant` | hagelslag/evaluation/ContingencyTable.py:82-85 | pss of (d, c, b, a) equals pss of (a, b, c, d) |
| `ScoreProperties.PssTransposeIsCss` | hagelslag/evaluation/ContingencyTable.py:82-90 | pss of the transposed table is css of the table |
| `ScoreProperties.ExampleTableScores` | hagelslag/evaluation/ContingencyTable.py:98-101 | the fifteen scores of the cells 1, 2, 3, 4 with total 10, among them pss = −1/12, hss = −4/46, css = −2/21 and ets = −0.2/4.8 |
| `ScoreProperties.NameRoundTrip` | hagelslag/evaluation/ContingencyTable.py:98-101 | looking a query's own name up gives that query back |
| `Evaluation.ContingencyTable.State` | hagelslag/evaluation/ContingencyTable.py:12-13 | the snapshot's cells sum to the sum of the array's cells and its total is the cached N; the snapshot is consistent iff the object's cached total agrees with its cells |
| `Evaluation.ContingencyTable.constructor` | hagelslag/evaluation/ContingencyTable.py:5-13 | a fresh 2x2 array holding a, b, c, d in row-major order, and N = a+b+c+d |
| `Evaluation.ContingencyTable.Update` | hagelslag/evaluation/ContingencyTable.py:15-17 | the same array is overwritten with a, b, c, d and N becomes their sum; nothing of the earlier cells or total survives, and only the cells and N change |
| `Evaluation.ContingencyTable.Query` | hagelslag/evaluation/ContingencyTable.py:98-101 | a score name gives that score of the current cells and cached total, dispatched through `ScoreName.Name` and `Table.Eval`; any other name gives none |
| `Evaluation.PeirceOfExample` | hagelslag/evaluation/ContingencyTable.py:98-101 | the table built from 1, 2, 3, 4 and asked for "pss" answers −1/12 |

## Left out

- Floating point. Cells and scores are exact reals. The model does not distinguish the
  nan and inf results of a zero divisor; both are `Undefined`. It also does not model
  rounding that depends on operand order, or the warnings numpy prints.
- The conversion of integer or other numeric arguments to float64 by `np.array(...,
  dtype=float)`. The model takes real cells.
- `__str__` (hagelslag/evaluation/ContingencyTable.py:92-95). It is a diagnostic tab
  layout that formats the cells with `%d`, truncating them to integers; the model has no
  number-to-text formatting.
- The demo's `print` statements (hagelslag/evaluation/ContingencyTable.py:100-101),
  because they are output only. Its `getattr` lookup is modelled only for the fifteen
  score names; any other attribute name gives no score. In Python the methods `update`
  and `__str__` are also attributes, and a missing name raises `AttributeError`.
- Aliasing of the cell array from outside the object. The source exposes `table` and
  `N` as public attributes, so a caller can write a cell without updating `N`. The
  model keeps such a table representable: `State()` reads the cached `N`, and
  `Consistent()`/`Valid()` then fail. The only operations modelled are the
  constructor and `Update`.
- hagelslag/data/ModelGrid.py is not part of this model. It is netCDF file I/O over a
  foreign library.
