# Fund projection engine and migration runner, modelled in Dafny

Two parts of the repository are modelled here.

1. **The Monte-Carlo fund projection** (`website/montecarlo.py`).
   - It finds a fund's rows in the allocation table.
   - It reduces them to a drift `mu` and a volatility `sigma`. Each is a weighted sum of percentages, divided by 100 twice.
   - For every requested horizon it simulates `n_sims` paths of a geometric Brownian motion, discretised in log space: `initial * exp(cumsum(drift + sigma * sqrt(dt) * z))`, with a leading 0 in log space.
   - At each time index it reduces the paths to the 10/25/50/75/90 percentiles. It uses NumPy's default `linear` method, rounds each value half-to-even to a whole unit, and builds one record per horizon.
2. **The Snowflake migration runner** (`scripts/deploy_to_snowflake.py`).
   - It reads the set of applied script keys from `ETL_DEPLOY_LOG_NEW`.
   - It then walks the `*.sql` files of `snowDDL` and then of `snowDML` in name order, skipping every script whose key `directory/name` is already in that set.
   - It runs the other scripts' `;`-separated, stripped, non-empty statements in file order. Each script's key is logged only after all its statements succeed, and the first failure ends the deployment.

Modules:

| file | module | what it holds |
|---|---|---|
| `sorting.dfy` | `Sorting` | insertion sort by a total preorder, used for percentiles and for file names |
| `numerics.dfy` | `Numerics` | `exp`/`sqrt` as parameters (`Analysis`), round half to even |
| `percentiles.dfy` | `Percentiles` | NumPy's linear percentile (Hyndman and Fan definition 7) |
| `fund_stats.dfy` | `FundStats` | allocation rows, fund lookup, `mu` and `sigma` |
| `montecarlo.dfy` | `MonteCarlo` | paths filled in a 2-D array, records, the horizon loop and its properties |
| `sql_text.dfy` | `SqlText` | Python's `str.split`, `str.strip`, text-mode newline translation, statement extraction |
| `script_files.dfy` | `ScriptFiles` | Python string order, the `*.sql` selection in sorted order, log keys |
| `deploy.dfy` | `Deploy` | the database as an acceptor of commands, the runner's specification functions, a `Database` class, and the runner's methods proved equal to those functions |

Modelling choices:

- **Randomness is an input.** The normal draws are a function `z(j, i, k)`: horizon number `j`, path `i`, step `k`.
- **Real numbers stand for floats.** `exp` and `sqrt` are fields of `Analysis`. The only law assumed of them is exp(0) = 1, as a precondition of `MonteCarlo.EnsembleStartsAtInitial` and `MonteCarlo.ProjectStartsAtInitial`; every other member holds for any `exp` and `sqrt`.
- **The database is a function `accepts(history, command)`.** It says whether a command submitted after a given history succeeds, so every pattern of failures is covered. The log table is a set of keys. Only an accepted log insert adds to it.
- **Two exceptions are modelled as error results.** A zero `steps_per_year` makes `1.0 / steps_per_year` raise, and a zero `n_sims` makes NumPy's percentile of an empty ensemble raise. Each happens only when at least one horizon is requested, before any record is built.
- **Behaviour of the code worth noting:**
  - `mu` and `sigma` use the weights as given, whatever they sum to (`FundStats.StatsAdditive`).
  - Index 0 of every band is `round(initial)` (`MonteCarlo.ProjectStartsAtInitial`).
  - Nothing validates the amount or the counts beyond the failures above.

## Model

| member | source | states |
|---|---|---|
| `Numerics.RoundHalfEven` | website/montecarlo.py:41-45 | definition: Python's `round(x, 0)`, the nearest whole number, ties to the even one |
| `Percentiles.Interpolate` | website/montecarlo.py:38 | definition: linear interpolation at rank `h` between the order statistics at `floor(h)` and the next index, the last element serving at the last rank |
| `Percentiles.Percentile` | website/montecarlo.py:38 | definition: NumPy's default `linear` percentile `p` of a sample: sort, take the rank `(n - 1) * p / 100`, interpolate |
| `Sorting.InsertBy` | website/montecarlo.py:38 | inserting into a sorted sequence gives a sorted sequence with exactly one more occurrence of the element |
| `Sorting.SortBy` | website/montecarlo.py:38 | the result is sorted by the preorder and is a permutation of the input |
| `Numerics.RoundToNearest` | website/montecarlo.py:41-45 | `round(x, 0)` is within 0.5 of `x`, and on a tie it is even |
| `Numerics.RoundMonotone` | website/montecarlo.py:41-45 | rounding never reverses an order, so rounded bands stay ordered |
| `Numerics.RoundWhole` | website/montecarlo.py:41-45 | a whole number rounds to itself |
| `Percentiles.RealLeIsTotalPreorder` | website/montecarlo.py:38 | `<=` on reals is a total preorder, so the sample can be sorted |
| `Percentiles.SortReals` | website/montecarlo.py:38 | the sorted sample has the same length, is a permutation of the sample, and is increasing |
| `Percentiles.Rank` | website/montecarlo.py:38 | the virtual rank `(n - 1) * p / 100` lies between 0 and `n - 1` |
| `Percentiles.InterpolateBetween` | website/montecarlo.py:38 | linear interpolation lies between the two order statistics around the rank |
| `Percentiles.InterpolateMonotone` | website/montecarlo.py:38 | in an increasing sample, interpolation is increasing in the rank |
| `Percentiles.PercentileMonotone` | website/montecarlo.py:38 | for `p <= q`, percentile `p` is at most percentile `q` |
| `Percentiles.SortedEnds` | website/montecarlo.py:38 | the first and last order statistics are the sample's minimum and maximum |
| `Percentiles.InterpolateEnds` | website/montecarlo.py:38 | rank 0 gives the first element; the last rank gives the last element |
| `Percentiles.PercentileWithinSample` | website/montecarlo.py:38 | every percentile is bounded by elements of the sample; percentiles 0 and 100 bound the whole sample |
| `Percentiles.PercentileOfConstant` | website/montecarlo.py:38 | if all values equal `c`, every percentile is `c` |
| `FundStats.SumBy` | website/montecarlo.py:21-22 | definition: `np.sum` of one weighted column over a list of rows |
| `FundStats.WeightedReturn` | website/montecarlo.py:20-21 | definition: one row's term `(weight / 100) * AVG_RETURN_10Y` |
| `FundStats.WeightedStdDev` | website/montecarlo.py:20-22 | definition: one row's term `(weight / 100) * STD_DEV_10Y` |
| `FundStats.Mu` | website/montecarlo.py:21 | definition: `mu`, the sum of the weighted returns divided by 100 |
| `FundStats.Sigma` | website/montecarlo.py:22 | definition: `sigma`, the sum of the weighted deviations divided by 100 |
| `FundStats.Group` | website/montecarlo.py:14 | the selected rows are the table's rows with the fund id, each exactly as often as it occurs in the table, and no other row |
| `FundStats.FundStatisticsOf` | website/montecarlo.py:14-22 | not found iff no row has the fund id; otherwise the name is that of the first matching row |
| `FundStats.FirstMatchIsGroupHead` | website/montecarlo.py:14-18 | the first selected row is the first row of the table with the fund id |
| `FundStats.SumByAppend` | website/montecarlo.py:21-22 | the weighted sum over a concatenation is the sum of the two sums |
| `FundStats.SumByRemove` | website/montecarlo.py:21-22 | removing one row removes exactly its term from the sum |
| `FundStats.PermutationWithout` | website/montecarlo.py:21-22 | removing the same row from two permutations leaves two permutations |
| `FundStats.SumByPermutation` | website/montecarlo.py:21-22 | the weighted sum does not depend on the row order |
| `FundStats.StatsOrderIndependent` | website/montecarlo.py:20-22 | `mu` and `sigma` are unchanged by any permutation of the fund's rows |
| `FundStats.TableOrderIndependent` | website/montecarlo.py:14-22 | any permutation of the whole table finds the fund exactly when the original does, with the same `mu` and `sigma` |
| `FundStats.StatsAdditive` | website/montecarlo.py:20-22 | `mu` and `sigma` are additive over a split of the rows, so weights are never normalised |
| `FundStats.StatsOfOneRow` | website/montecarlo.py:20-22 | one row contributes `(weight / 100) * (figure / 100)` to each statistic |
| `MonteCarlo.DefaultRequest` | website/montecarlo.py:12 | definition: the default arguments `initial=100000`, `years_list=[1,5,10]`, `n_sims=3000`, `steps_per_year=1` |
| `MonteCarlo.StepsOf` | website/montecarlo.py:26 | definition: `steps = horizon * steps_per_year` |
| `MonteCarlo.Dt` | website/montecarlo.py:27 | definition: `dt = 1.0 / steps_per_year` |
| `MonteCarlo.Drift` | website/montecarlo.py:31 | definition: `drift = (mu - 0.5 * sigma**2) * dt` |
| `MonteCarlo.Scale` | website/montecarlo.py:32 | definition: the factor `sigma * sqrt(dt)` of each draw |
| `MonteCarlo.LogSum` | website/montecarlo.py:31-35 | definition: the cumulative sum of a path's log-returns, with the leading 0 of line 35 |
| `MonteCarlo.PathValue` | website/montecarlo.py:36 | definition: `initial * exp(log-sum)` of one path at one index |
| `MonteCarlo.Summarize` | website/montecarlo.py:38-57 | definition: the record of one horizon: years, timeline, five rounded percentile bands, and the last p25, median and p75 |
| `MonteCarlo.Horizon` | website/montecarlo.py:26-60 | definition: one iteration of the horizon loop, from the counts to the appended record |
| `MonteCarlo.Project` | website/montecarlo.py:12-62 | definition: the whole call, with its three failures: unknown fund, division by zero, empty ensemble |
| `MonteCarlo.DeterministicValue` | website/montecarlo.py:31-36 | definition: `initial * exp(mu * t * dt)`, the path with no volatility |
| `MonteCarlo.Ensemble` | website/montecarlo.py:33-36 | the path matrix has `n_sims` rows of `steps + 1` values |
| `MonteCarlo.SimulatePaths` | website/montecarlo.py:30-36 | the fresh `n_sims x (steps + 1)` array holds `initial * exp(log-sum)` of each path at each index |
| `MonteCarlo.FillPath` | website/montecarlo.py:33-36 | the running sum of log-returns, with its leading 0, writes one path's row and leaves every other row as it was |
| `MonteCarlo.RowsOf` | website/montecarlo.py:36-38 | definition: the matrix read as a sequence of rows; what it holds is stated by `MonteCarlo.EnsembleFromMatrix` |
| `MonteCarlo.EnsembleFromMatrix` | website/montecarlo.py:34-36 | an array filled by `SimulatePaths` equals the path ensemble |
| `MonteCarlo.Column` | website/montecarlo.py:38 | definition: the values of all paths at index `t`, the slice `axis=0` reduces; its properties are carried by `MonteCarlo.SummarizeOrdered` and `MonteCarlo.SummarizeWithinPaths` |
| `MonteCarlo.Band` | website/montecarlo.py:38-45 | each band has one value per time index |
| `MonteCarlo.HorizonEnsemble` | website/montecarlo.py:26-36 | a horizon's ensemble has `n_sims` rows of `horizon * steps_per_year + 1` values |
| `MonteCarlo.Horizons` | website/montecarlo.py:24-60 | the loop has appended one record per processed horizon |
| `MonteCarlo.HorizonsAt` | website/montecarlo.py:24-60 | record `j` is the `j`-th requested horizon, simulated with draws `j` |
| `MonteCarlo.SimulateHorizon` | website/montecarlo.py:26-60 | one loop iteration builds the array and reduces it to that horizon's record |
| `MonteCarlo.MonteCarloProjection` | website/montecarlo.py:12-62 | the method returns the result defined by `Project`, including all three failures |
| `MonteCarlo.ProjectFailsIffFundUnknown` | website/montecarlo.py:14-16 | the lookup error occurs exactly when no row has the fund id |
| `MonteCarlo.ProjectFailures` | website/montecarlo.py:14-38 | the call fails iff the fund is unknown, or a horizon is requested and a count is zero; division by zero comes first; a success has one record per horizon |
| `MonteCarlo.SummarizeShape` | website/montecarlo.py:40-57 | a record has `years = horizon`, timeline `0..steps`, five bands of length `steps + 1`, and finals equal to the last p25, median and p75 |
| `MonteCarlo.SummarizeOrdered` | website/montecarlo.py:38-45 | at every index, p10 <= p25 <= median <= p75 <= p90 after rounding |
| `MonteCarlo.SummarizeWithinPaths` | website/montecarlo.py:38-45 | p10 is at least some path's rounded value and p90 at most some path's rounded value |
| `MonteCarlo.SummarizeCollapses` | website/montecarlo.py:38-45 | where all paths share a value, all five bands are that value rounded |
| `MonteCarlo.EnsembleStartsAtInitial` | website/montecarlo.py:35-36 | every path's value at index 0 is exactly `initial` |
| `MonteCarlo.LogSumWithoutDiffusion` | website/montecarlo.py:31-34 | with no diffusion, the log-sum after `t` steps is `t * drift`, whatever the draws |
| `MonteCarlo.PathWithoutDiffusion` | website/montecarlo.py:31-36 | with no diffusion, a path is `initial * exp(mu * t * dt)` |
| `MonteCarlo.EnsembleWithoutDiffusion` | website/montecarlo.py:31-36 | with no diffusion, all paths coincide with that curve |
| `MonteCarlo.ProjectedRecord` | website/montecarlo.py:18-49 | on success: the name is the first matching row's, there is one record per horizon, and record `j` is horizon `j` simulated with the fund's `mu` and `sigma` |
| `MonteCarlo.ProjectShape` | website/montecarlo.py:24-57 | every record has the shape of its horizon, in request order |
| `MonteCarlo.ProjectOrdered` | website/montecarlo.py:38-45 | every record's bands are ordered at every index |
| `MonteCarlo.ProjectStartsAtInitial` | website/montecarlo.py:35-45 | at index 0, every band of every record is `round(initial)` |
| `MonteCarlo.HorizonWithoutVolatility` | website/montecarlo.py:31-45 | with `sigma = 0`, all five bands of a record equal `round(initial * exp(mu * t * dt))` |
| `MonteCarlo.ProjectWithoutVolatility` | website/montecarlo.py:31-45 | with `sigma = 0`, the same holds for every record of the projection |
| `MonteCarlo.DefaultsProject` | website/montecarlo.py:12-60 | with the default horizons and counts and any initial amount, a call fails only for an unknown fund and otherwise gives the 1-, 5- and 10-year records with timelines `0..1`, `0..5` and `0..10` |
| `SqlText.Join` | scripts/deploy_to_snowflake.py:29 | definition: `sep.join(pieces)`, the inverse of `str.split` used in the lemmas |
| `SqlText.IsSpace` | scripts/deploy_to_snowflake.py:30 | definition: the whitespace characters `str.strip()` removes |
| `SqlText.Split` | scripts/deploy_to_snowflake.py:29 | `str.split(";")` gives at least one piece, and no piece contains the separator |
| `SqlText.JoinSplit` | scripts/deploy_to_snowflake.py:29 | rejoining the pieces with the separator gives back the text |
| `SqlText.SplitJoin` | scripts/deploy_to_snowflake.py:29 | splitting a join of separator-free pieces gives back the pieces |
| `SqlText.SplitPiece` | scripts/deploy_to_snowflake.py:29 | text without the separator is a single piece |
| `SqlText.SplitAfterPiece` | scripts/deploy_to_snowflake.py:29 | a separator-free prefix followed by a separator is the first piece |
| `SqlText.JoinAppend` | scripts/deploy_to_snowflake.py:29 | joining two piece lists puts one separator between their joins |
| `SqlText.SplitAppend` | scripts/deploy_to_snowflake.py:29 | text cut at a separator splits into the pieces of both sides |
| `SqlText.StripStart` | scripts/deploy_to_snowflake.py:30 | the result is no longer than the input and does not start with whitespace |
| `SqlText.StripEnd` | scripts/deploy_to_snowflake.py:30 | the result is no longer than the input, does not end with whitespace, and keeps the first character |
| `SqlText.StripStartDrops` | scripts/deploy_to_snowflake.py:30 | only a leading run of whitespace is removed |
| `SqlText.StripEndKeeps` | scripts/deploy_to_snowflake.py:30 | only a trailing run of whitespace is removed |
| `SqlText.Strip` | scripts/deploy_to_snowflake.py:30 | `str.strip()` leaves no whitespace at either end |
| `SqlText.StripIsSlice` | scripts/deploy_to_snowflake.py:30 | the result is a slice of the input with only whitespace on either side |
| `SqlText.StripKeepsOut` | scripts/deploy_to_snowflake.py:30 | stripping adds no character, so a piece without `;` stays without `;` |
| `SqlText.StripKeepsStripped` | scripts/deploy_to_snowflake.py:30 | text already without whitespace at its ends is unchanged |
| `SqlText.StripIdempotent` | scripts/deploy_to_snowflake.py:30 | stripping twice is stripping once |
| `SqlText.StripAll` | scripts/deploy_to_snowflake.py:29-30 | each piece is stripped, in place |
| `SqlText.NonEmpty` | scripts/deploy_to_snowflake.py:31 | the kept texts are non-empty and come from the input |
| `SqlText.Statements` | scripts/deploy_to_snowflake.py:29-31 | every statement is non-empty, has no `;` and has no surrounding whitespace |
| `SqlText.StripAllAppend` | scripts/deploy_to_snowflake.py:29-30 | stripping distributes over concatenation |
| `SqlText.NonEmptyAppend` | scripts/deploy_to_snowflake.py:31 | filtering distributes over concatenation, keeping order |
| `SqlText.StatementsInFileOrder` | scripts/deploy_to_snowflake.py:29-32 | the statements of text cut at a `;` are those of the part before it, then those of the part after it |
| `SqlText.StatementsOfOnePiece` | scripts/deploy_to_snowflake.py:29-31 | a text without `;` is one statement, or none when it is blank |
| `SqlText.TranslateNewlines` | scripts/deploy_to_snowflake.py:26-27 | text read in text mode has no carriage return and is no longer than the file |
| `SqlText.TranslateNewlinesKeeps` | scripts/deploy_to_snowflake.py:26-27 | a file without carriage returns is read unchanged |
| `SqlText.TranslateNewlinesKeepsText` | scripts/deploy_to_snowflake.py:26-27 | reading changes only line breaks: with line-break characters removed, the text read and the file are equal |
| `SqlText.TranslateNewlinesIdempotent` | scripts/deploy_to_snowflake.py:26-27 | translating an already translated text changes nothing |
| `ScriptFiles.LexLe` | scripts/deploy_to_snowflake.py:19 | definition: Python's string order, character code by character code, a prefix first |
| `ScriptFiles.IsSqlName` | scripts/deploy_to_snowflake.py:19 | definition: a name that matches the pattern `*.sql` |
| `ScriptFiles.LexLeTotal` | scripts/deploy_to_snowflake.py:19 | any two names compare one way or the other |
| `ScriptFiles.LexLeTransitive` | scripts/deploy_to_snowflake.py:19 | name order is transitive |
| `ScriptFiles.LexLeAntisymmetric` | scripts/deploy_to_snowflake.py:19 | two names each at most the other are equal |
| `ScriptFiles.NameLeIsTotalPreorder` | scripts/deploy_to_snowflake.py:19 | files ordered by name form a total preorder |
| `ScriptFiles.Matching` | scripts/deploy_to_snowflake.py:19 | the selected entries are exactly those whose name matches `*.sql` |
| `ScriptFiles.MatchingCounts` | scripts/deploy_to_snowflake.py:19 | each matching entry is selected exactly as often as it is listed, and no other entry is |
| `ScriptFiles.SqlFiles` | scripts/deploy_to_snowflake.py:19 | the files are a permutation of the selected entries, so each matching entry is there as often as listed (`ScriptFiles.MatchingCounts`), in name order |
| `ScriptFiles.DistinctNamesOccurOnce` | scripts/deploy_to_snowflake.py:19 | in a listing with distinct names every entry occurs at most once |
| `ScriptFiles.SqlFilesOnce` | scripts/deploy_to_snowflake.py:19 | each sorted file occurs as often as it is listed, if its name matches |
| `ScriptFiles.SqlFilesDistinct` | scripts/deploy_to_snowflake.py:19 | a listing with distinct names gives sorted files with distinct names |
| `ScriptFiles.Key` | scripts/deploy_to_snowflake.py:21 | definition: the key `directory/name`; what it guarantees is stated by `ScriptFiles.KeyInjective` and `ScriptFiles.KeyOrder` |
| `ScriptFiles.LexLeCommonPrefix` | scripts/deploy_to_snowflake.py:19-21 | a common prefix does not change the order of two strings |
| `ScriptFiles.KeyOrder` | scripts/deploy_to_snowflake.py:19-21 | keys of one directory compare as their file names do |
| `ScriptFiles.KeyInjective` | scripts/deploy_to_snowflake.py:21 | within one directory, equal keys mean equal file names, the key tested at line 21 being the one inserted at line 34 |
| `Deploy.Step` | scripts/deploy_to_snowflake.py:32-37 | definition: one `execute`: the command joins the history, and an accepted log insert adds its key to the log |
| `Deploy.ExecAll` | scripts/deploy_to_snowflake.py:28-41 | definition: executing commands in order until the first rejection |
| `Deploy.Accepted` | scripts/deploy_to_snowflake.py:32 | definition: the number of leading commands the database accepts, at most the number of commands so that it can cut them; its meaning is stated by `Deploy.ExecAllSubmits` |
| `Deploy.ExecAllSubmits` | scripts/deploy_to_snowflake.py:28-41 | the accepted commands and the first rejected one are submitted, nothing later; success iff every command is accepted |
| `Deploy.ExecAllAppend` | scripts/deploy_to_snowflake.py:28-41 | running `a + b` runs `a`, then `b` only if `a` succeeded |
| `Deploy.AsCommands` | scripts/deploy_to_snowflake.py:32 | definition: one statement command per statement, in order; what running them does is stated by `Deploy.StatementsThenInsert` |
| `Deploy.ScriptCommands` | scripts/deploy_to_snowflake.py:26-37 | definition: a script's statements followed by the insert of its key |
| `Deploy.StatementsThenInsert` | scripts/deploy_to_snowflake.py:29-37 | the log gains the key exactly when the statements and the insert all succeed |
| `Deploy.ScriptLogged` | scripts/deploy_to_snowflake.py:33-37 | a script's key is logged iff the whole script succeeded; otherwise the log is unchanged |
| `Deploy.Completed` | scripts/deploy_to_snowflake.py:33-41 | definition: the scripts of a run that finished, all but the last one started when the run failed |
| `Deploy.Keys` | scripts/deploy_to_snowflake.py:34 | definition: the set of log keys of a list of keys |
| `Deploy.RunScripts` | scripts/deploy_to_snowflake.py:19-41 | definition: `run_new_sql_scripts`: skip applied keys, run the others in name order, stop at the first failure |
| `Deploy.Trace` | scripts/deploy_to_snowflake.py:20-41 | definition: the commands of all non-skipped scripts of a listing, one script after another |
| `Deploy.KeysOfCompletedAppend` | scripts/deploy_to_snowflake.py:20-41 | the completed keys of two consecutive runs are the union of each run's completed keys |
| `Deploy.PendingKeys` | scripts/deploy_to_snowflake.py:20-23 | no pending key is in the applied set |
| `Deploy.RunIsTrace` | scripts/deploy_to_snowflake.py:20-41 | a directory run submits exactly what executing its trace of non-skipped scripts does, cut at the first rejection |
| `Deploy.RanArePending` | scripts/deploy_to_snowflake.py:19-41 | the scripts started are a prefix of the non-applied ones, all of them on success, at least one on failure |
| `Deploy.RunLogsCompleted` | scripts/deploy_to_snowflake.py:33-41 | the log gains the keys of the completed scripts: all started on success, all but the failing one otherwise |
| `Deploy.NothingPendingRunsNothing` | scripts/deploy_to_snowflake.py:21-23 | a directory whose scripts are all applied submits nothing and succeeds |
| `Deploy.AppliedOrPending` | scripts/deploy_to_snowflake.py:20-23 | every file is either applied or pending |
| `Deploy.PendingKeysFromFiles` | scripts/deploy_to_snowflake.py:20-23 | every pending key is the key of a file of the directory |
| `Deploy.PendingKeysDistinct` | scripts/deploy_to_snowflake.py:20-23 | distinct file names give distinct pending keys |
| `Deploy.PendingKeysInOrder` | scripts/deploy_to_snowflake.py:19-23 | for files in name order, the pending keys are in order |
| `Deploy.ScriptsRunInNameOrder` | scripts/deploy_to_snowflake.py:19-20 | the scripts of a listing start in name order |
| `Deploy.FailingScriptNotLogged` | scripts/deploy_to_snowflake.py:28-41 | after a failure, the failing script's key is not in the log |
| `Deploy.DirectoriesApart` | scripts/deploy_to_snowflake.py:21 | no key of `snowDDL` is a key of `snowDML` |
| `Deploy.RanFromDirectory` | scripts/deploy_to_snowflake.py:19-34 | every script a run starts has the key of a file of its directory |
| `Deploy.RanDistinctFresh` | scripts/deploy_to_snowflake.py:19-34 | for distinct names, the scripts a run starts have distinct keys, none of them applied |
| `Deploy.PhasesApart` | scripts/deploy_to_snowflake.py:57-58 | no script started by the DDL run has the key of one started by the DML run |
| `Deploy.DeploymentFailureNotLogged` | scripts/deploy_to_snowflake.py:39-58 | for listings with distinct names, after a failed deployment the failing script's key is not in the final log, in either phase |
| `Deploy.Deployment` | scripts/deploy_to_snowflake.py:54-58 | definition: `main`: read the log once, run `snowDDL`, then `snowDML` if the DDL run succeeded |
| `Deploy.BootstrapKeepsLog` | scripts/deploy_to_snowflake.py:8-15 | creating and reading the log table leaves the log unchanged |
| `Deploy.DdlBeforeDml` | scripts/deploy_to_snowflake.py:56-58 | a DML script starts only after every pending DDL script succeeded; the history is then the DDL trace followed by a prefix of the DML trace |
| `Deploy.DmlHistory` | scripts/deploy_to_snowflake.py:56-58 | when the whole DDL trace is accepted, the DDL run succeeds and the history is the DDL trace followed by a prefix of the DML trace |
| `Deploy.DdlFailureStops` | scripts/deploy_to_snowflake.py:39-58 | a failing DDL script fails the deployment, starts no DML script, and stops the submissions inside the DDL trace |
| `Deploy.DeploymentLog` | scripts/deploy_to_snowflake.py:33-58 | the final log is the initial log plus the keys of the completed scripts of both phases |
| `Deploy.RerunExecutesNothing` | scripts/deploy_to_snowflake.py:54-58 | after a successful deployment, a second one only reads the log, starts no script, and leaves the log as it was |
| `Deploy.DeploymentCoversAll` | scripts/deploy_to_snowflake.py:33-58 | after a successful deployment, every script file of both directories is logged |
| `Deploy.Database.constructor` | scripts/deploy_to_snowflake.py:44-52 | a fresh connection has submitted nothing and sees the given log |
| `Deploy.Database.Submit` | scripts/deploy_to_snowflake.py:32 | one `execute` appends the command to the history and, for an accepted insert, adds the key to the log |
| `Deploy.GetAppliedScripts` | scripts/deploy_to_snowflake.py:5-15 | creates and reads the log table; on success the returned set is the log |
| `Deploy.RunScript` | scripts/deploy_to_snowflake.py:25-41 | the loop over the pieces submits exactly the script's statements, then its log insert, stopping at the first rejection |
| `Deploy.RunNewSqlScripts` | scripts/deploy_to_snowflake.py:17-41 | the loop over the sorted files ends in the state and result that `RunScripts` defines |
| `Deploy.RunDeployment` | scripts/deploy_to_snowflake.py:54-58 | reads the log once, runs DDL then DML, and ends in the state and result that `Deployment` defines |

## Left out

- The random generator (`montecarlo.py:30`) is replaced by the draws `z`. Nothing is claimed about their distribution.
- Floating-point behaviour is not modelled: overflow, rounding of `cumsum` and of `exp`/`sqrt`, NaN and infinity. Values are reals; `exp` and `sqrt` are parameters, and no law of `sqrt` is assumed.
- CSV reading (`montecarlo.py:13`) is not modelled: the table is a sequence of rows, with the numeric columns already converted by `astype(float)`.
- Python's `round(x, 0)` returns a float with a whole value (such as `107251.0`); the model represents it as an `int` (`Numerics.RoundHalfEven`). The value is the same, the type is not.
- `_to_num` (`montecarlo.py:4-10`) only converts NumPy scalars to Python ones, so it is the identity here.
- The counts and horizons are natural numbers:
  - negative `n_sims` or horizons, which make NumPy raise, are outside the types;
  - so are non-integer values of `steps_per_year` or of the horizons, which Python accepts through `int(...)`.
- The directory listing, file reading and the database connection are inputs or the `accepts` function:
  - `Path.glob` and `open` are left out;
  - `snowflake.connector.connect` and the environment variables (lines 44-52) are left out;
  - `conn.close()` (line 60) is left out.
  - Files are taken as decoded text, and directory entries are taken to be regular files.
- The `print` calls (lines 22, 25, 38, 40, 61) are left out, as they have no effect on the database.
- Whether the database commits, and what any exception carries, are not modelled: a failure is `accepts` returning false. Nothing outside the runner is modelled as changing `ETL_DEPLOY_LOG_NEW` during a run.
- `Path` ordering is modelled as the ordering of file names, which is what it reduces to for files of one directory.
- Deploy.FailingScriptNotLogged: holds only when the file names of the directory are distinct and the log held no key outside the applied set, which is the case for the DDL phase. For a whole deployment, both phases included, `Deploy.DeploymentFailureNotLogged` states it with only distinct names required. A listing can repeat a name only in the model; a real directory cannot.
- Deploy.DeploymentLog: assumes a script's own statements never change `ETL_DEPLOY_LOG_NEW`; in the model the log changes only through an accepted log insert, whereas a script could itself insert into or delete from that table.
- Deploy.DeploymentCoversAll: rests on the same assumption; a script that deletes rows of `ETL_DEPLOY_LOG_NEW` would leave keys unlogged.
- Deploy.RerunExecutesNothing: rests on the same assumption; a script that deletes rows of `ETL_DEPLOY_LOG_NEW` would be run again by the next deployment.
