# A verified model of the learning-rule, task and utility core

This project models in Dafny the computational core of a research code base
for training recurrent networks:

- the reward-modulated eligibility-trace rule `Miconi_REINFORCE`, as two
  classes over `real` arrays: the network (`Rnn`) and the learner
  (`MiconiReinforce`);
- the task helpers of `gen_data_utils.py`:
  - the transition matrices of the Markov task, with their idempotency
    forcing;
  - the dictionary of matrices per input;
  - the concatenation of two datasets;
  - the hand-built flip-flop network of Ceni and Livi (2019);
- the utilities of `programming_tools.py`:
  - the Cartesian product of configurations;
  - dotted attribute lookup;
  - splitting a weight matrix at the prefix sums of its sizes;
  - the parser that collects the parameter values of a list of simulation
    key strings;
- the `compare_` key filter and the analysis job name of the two comparison
  entry scripts.

The Python built-ins these pieces rely on are modelled in `builtins.dfy`:
`str.split` with a non-empty separator, substring `in`, `str.replace` on one
character, and `str(n)` for naturals. `str.join` is modelled too, but only to
state that splitting loses nothing (`PyBuiltins.SplitJoin`); no modelled
code calls it.

Modules and files:

| file | module | models |
|---|---|---|
| `wrappers.dfy` | `Wrappers` | `Option` and `Result` |
| `builtins.dfy` | `PyBuiltins` | the string built-ins |
| `matrices.dfy` | `Matrices` | matrices as sequences of rows |
| `miconi_reinforce.dfy` | `Reinforce` | the learning rule |
| `gen_data_utils.dfy` | `GenDataUtils` | the task helpers |
| `programming_tools.dfy` | `ProgrammingTools` | the utilities |
| `compare_keys.dfy` | `CompareKeys` | the shared key filter |
| `compare_main.dfy` | `CompareMain` | the comparison script |
| `cross_compare_main.dfy` | `CrossCompareMain` | the cross-comparison script |

Modelling choices:

- Random draws are inputs.
  - The learner's Bernoulli mask is a `seq<bool>`.
  - Its Gaussian noise is a standard-normal sample `z`, scaled by `sigma`
    (for sigma >= 0 a draw of N(0, sigma) is sigma times a draw of N(0, 1)).
  - A `p` outside [0, 1] makes the Bernoulli draw raise (`MaskDefined`),
    and a negative `sigma` makes the Gaussian draw raise (`NoiseDefined`).
    Either failure comes before the hidden state is touched, and the update
    reports it. When only the Gaussian draw raises, `pert` already holds the
    0/1 mask (`MaskVector`).
  - The permutations of the Markov task are sequences that are given;
    `IsPermutation` states what they are.
- Python raising an exception becomes an explicit error value:
  - `None`, an `Err` of a `ParseError`, or `ok == false`;
  - the steps the Python code has already taken before it raises are kept.
- Python's negative list indexing is modelled (`ValidIndex`, `NormIndex`).
  So is its slice clamping (`PySlice`).
- Floating point is modelled as `real`.

The comparison filter is not a prefix test:

- `'compare_' in k` matches anywhere in the key.
- The new key is the text after the first occurrence, up to the next one.
- `CompareKeys.NewKeyOfInfixed` shows `x_compare_y` becoming `y`.

The parser of simulation keys has one quirk, kept as written:

- The first occurrence of a key only registers the key, with an empty set.
- Its value is lost. Values are collected from the second occurrence on.
- `ProgrammingTools.CollectMeaning` states this outright.

## Model

| member | source | states |
|---|---|---|
| Reinforce.MiconiReinforce.constructor | learning_algorithms/Miconi_REINFORCE.py:7-45 | name is `Miconi_REINFORCE`; an option not given takes its default (decay 1, loss_decay 0.01, h_avg_decay 0.03, reset_h_avg true); tau_e_trace is 0.05 whatever is passed; h_avg and the trace start at zero of the network's shape, loss_avg as n_trial_types zeros, both losses 0 |
| Reinforce.MiconiReinforce.UpdateLearningVars | learning_algorithms/Miconi_REINFORCE.py:47-77 | the whole new state: a_hat, the smoothed hidden average, the deviation from it taken before the perturbation, the outer product, the trace grown by its cubes, the shifted losses, loss_avg changed at the trial type's entry only (smoothed with the previous loss), h perturbed in place by the masked noise; an out-of-range trial type fails at line 70 and leaves loss_avg, pert and h as they were; p outside [0, 1] fails at line 74, after loss_avg was updated, and leaves pert and h as they were; with p in range, sigma < 0 fails at line 75 with pert already set to the 0/1 mask and h unchanged |
| Reinforce.MiconiReinforce.TraceStep | learning_algorithms/Miconi_REINFORCE.py:53-66 | a_hat is a_prev, x and the bias 1; the hidden average is smoothed; the trace grows by the cube of the outer product of the deviation and a_hat |
| Reinforce.MiconiReinforce.LossStep | learning_algorithms/Miconi_REINFORCE.py:67-77 | loss_prev takes the old loss and loss takes the network's; only loss_avg at the trial type changes, smoothed with loss_prev; h gains the perturbation; an out-of-range trial type changes neither loss_avg nor h; every failure leaves h unchanged; p outside [0, 1] keeps the loss_avg update and leaves pert unchanged; with p in range, sigma < 0 keeps the loss_avg update and leaves pert holding the 0/1 mask drawn at line 74 |
| Reinforce.MiconiReinforce.SmoothHiddenAverage | learning_algorithms/Miconi_REINFORCE.py:57 | every entry of h_avg becomes the blend of itself and h at rate h_avg_decay |
| Reinforce.MiconiReinforce.AccumulateTrace | learning_algorithms/Miconi_REINFORCE.py:66 | every trace entry grows by the cube of the instantaneous entry |
| Reinforce.MiconiReinforce.PerturbHidden | learning_algorithms/Miconi_REINFORCE.py:77 | the network's own hidden array gains the perturbation in place |
| Reinforce.MiconiReinforce.GetRecGrads | learning_algorithms/Miconi_REINFORCE.py:79-83 | changes nothing; it returns a result exactly when the trial type indexes loss_avg; entry (i, j) is the loss advantage times trace entry (i, j) |
| Reinforce.MiconiReinforce.ResetLearning | learning_algorithms/Miconi_REINFORCE.py:85-90 | the trace becomes zero; h_avg becomes zero when reset_h_avg and otherwise stays; the losses are not touched |
| Reinforce.ResetThenGetRecGrads | learning_algorithms/Miconi_REINFORCE.py:79-90 | a reset followed by a gradient request gives the zero matrix of the trace's shape |
| Reinforce.ZeroSigmaUpdate | learning_algorithms/Miconi_REINFORCE.py:74-77 | with sigma 0 an update leaves the hidden state as it was |
| Reinforce.BlendBetween | learning_algorithms/Miconi_REINFORCE.py:57 | with a rate in [0, 1] the moving average lands between the old average and the sample |
| Reinforce.SmoothBetween | learning_algorithms/Miconi_REINFORCE.py:57 | every entry of the new hidden average lies between the old average entry and h's entry |
| Reinforce.TraceGrowth | learning_algorithms/Miconi_REINFORCE.py:60-66 | trace entry (i, j) grows by exactly (D[i] * a_hat[j])^3, and the bias column grows by D[i]^3 |
| Reinforce.PerturbationVanishes | learning_algorithms/Miconi_REINFORCE.py:74-77 | entries whose mask is off are unchanged; with sigma 0 none changes |
| GenDataUtils.TransitionMatrix | gen_data/gen_data_utils.py:26-39 | the result is the 0/1 matrix of a map on the n states: perm, then, when idem, perm forced along the order; forcing rewrites row k to the unit row only when column k has a positive sum; when idem the matrix equals its square |
| GenDataUtils.MarkovTaskAttempt | gen_data/gen_data_utils.py:15-41 | the fixed points are the unit rows; the keys are exactly input_0 … input_{n-1}; each holds the matrix of its permutation, forced along its order; when idem every matrix is idempotent |
| GenDataUtils.ForceStep | gen_data/gen_data_utils.py:35-36 | one pass of the forcing loop for state k: k becomes a fixed point when some state is sent to it, and nothing changes otherwise. It only computes; SettledStep states that the pass settles k and keeps earlier states settled |
| GenDataUtils.Force | gen_data/gen_data_utils.py:34-36 | the forcing loop run over the whole order. It only computes; ForceKeepsMap, ForceSettles and ForceIdempotent state that the result is a map, that every visited state is settled, and that the result is idempotent |
| GenDataUtils.ForceKeepsMap | gen_data/gen_data_utils.py:34-36 | forcing keeps every row a unit row of a state |
| GenDataUtils.ForceSettles | gen_data/gen_data_utils.py:34-36 | after the loop every visited state is a fixed point or is sent to by no state |
| GenDataUtils.ForceIdempotent | gen_data/gen_data_utils.py:32-39 | for any order visiting every state, the forced map f satisfies f(f(i)) == f(i) |
| GenDataUtils.ColumnSumCounts | gen_data/gen_data_utils.py:35 | a column sum of the matrix of f is non-negative, and positive exactly when some state is sent there |
| GenDataUtils.ProductOfMatrixOf | gen_data/gen_data_utils.py:39 | the square of the matrix of f is the matrix of f composed with itself |
| GenDataUtils.IdempotentIff | gen_data/gen_data_utils.py:39 | `(T == T.dot(T)).all()` holds for the matrix of f exactly when f is idempotent |
| GenDataUtils.InputKeyInjective | gen_data/gen_data_utils.py:41 | different inputs get different keys |
| GenDataUtils.ConcatenateDatasets | gen_data/gen_data_utils.py:53-63 | a result exactly when all four parts are in both inputs; keys exactly train and test, each with exactly X and Y; each part is data_1's rows followed by data_2's |
| GenDataUtils.ConcatStep | gen_data/gen_data_utils.py:59-61 | one pass of the loop adds its part and keeps the parts built before |
| GenDataUtils.ConcatenatedShape | gen_data/gen_data_utils.py:57-61 | once both io keys of both datasets are in, each dataset has exactly those keys |
| GenDataUtils.VStackPairs | gen_data/gen_data_utils.py:143 | stacking n 2-row blocks gives a 2n-row matrix whose row 2b + k is row k of block b |
| GenDataUtils.HStackPairs | gen_data/gen_data_utils.py:144 | n side-by-side 2-column blocks give a matrix whose entry (r, 2b + k) is entry (r, k) of block b |
| GenDataUtils.KronPairEntry | gen_data/gen_data_utils.py:147 | entry (2i + k, 2j + l) of `np.kron(A, B)` is A[i][j] * B[k][l] |
| GenDataUtils.FlipFlopInput | gen_data/gen_data_utils.py:130-143 | W_in is 2n x n, with w_in at (2i + 1, i) and 0 elsewhere |
| GenDataUtils.FlipFlopOutput | gen_data/gen_data_utils.py:138-144 | W_out is n x 2n, with 1 at (i, 2i) and 0 elsewhere |
| GenDataUtils.FlipFlopRecurrence | gen_data/gen_data_utils.py:146-147 | W_rec is 2n x 2n; its block (i, j) is B = [[1.1, 4], [-s, 4]] when i == j and zero otherwise |
| GenDataUtils.FlipFlopCeniLiviSolution | gen_data/gen_data_utils.py:115-152 | no result exactly when n == 0, where `np.vstack([])` raises; otherwise W_in, W_out and W_rec as above, and zero biases of lengths 2n and n |
| ProgrammingTools.Product | utils/programming_tools.py:15 | `itertools.product` yields the product of the lengths of the value lists |
| ProgrammingTools.PrependAt | utils/programming_tools.py:15 | tuple i * m + j pairs the i-th first value with the j-th tail |
| ProgrammingTools.ProductMember | utils/programming_tools.py:15 | the tuples are exactly the choices of one value from each list |
| ProgrammingTools.ProductOrder | utils/programming_tools.py:15 | product order: the first list varies slowest, the rest in product order within it |
| ProgrammingTools.ProductOfEmpty | utils/programming_tools.py:15 | an empty value list anywhere gives no tuple |
| ProgrammingTools.ZipMapLookup | utils/programming_tools.py:16 | `dict(zip(keys, instance))` with distinct keys has exactly those keys, each mapped to its own value |
| ProgrammingTools.ConfigGenerator | utils/programming_tools.py:7-16 | no keyword arguments give exactly one empty configuration |
| ProgrammingTools.ConfigsSound | utils/programming_tools.py:7-16 | every configuration has exactly the given keys, each valued from its own list |
| ProgrammingTools.ConfigsComplete | utils/programming_tools.py:7-16 | there are Π of the list lengths configurations, and every choice of one value per key occurs among them |
| ProgrammingTools.ConfigsOfEmpty | utils/programming_tools.py:15-16 | an empty value list for any key gives no configuration |
| ProgrammingTools.GetAttr | utils/programming_tools.py:29 | getattr succeeds exactly on an object that has the attribute, and returns it |
| ProgrammingTools.FollowAppend | utils/programming_tools.py:29 | following p + q is following p, then q from where p ends |
| ProgrammingTools.RGetAttr | utils/programming_tools.py:29 | `reduce(getattr, [obj] + attr.split('.'))`. It only computes; RGetAttrSingle, RGetAttrCompose, FollowMissing and RGetAttrExample state what it returns |
| ProgrammingTools.RGetAttrCompose | utils/programming_tools.py:29 | `rgetattr(o, a + '.' + b)` is `rgetattr(rgetattr(o, a), b)`, failing if the first lookup fails |
| ProgrammingTools.RGetAttrSingle | utils/programming_tools.py:29 | without a dot, rgetattr is getattr |
| ProgrammingTools.FollowMissing | utils/programming_tools.py:29 | a segment that names no attribute on the way makes the lookup fail |
| ProgrammingTools.RGetAttrExample | test_utils.py:48-60 | the nested test objects give `rgetattr(bar, 'x.y') == 2` |
| ProgrammingTools.PrefixSums | utils/programming_tools.py:36 | idx starts at 0, has one more entry than sizes, and idx[i + 1] == idx[i] + sizes[i] |
| ProgrammingTools.SliceBound | utils/programming_tools.py:38-40 | a slice bound is clamped to [0, len] and kept as is within it |
| ProgrammingTools.SplitWeightMatrix | utils/programming_tools.py:32-41 | axis defaults to 1; a result exactly for axis 0 or 1 (any other leaves `ret` unbound); one piece per size |
| ProgrammingTools.PrefixSumsMonotone | utils/programming_tools.py:36 | non-negative sizes whose total fits give prefix sums rising from 0 to at most that length |
| ProgrammingTools.ColumnPieces | utils/programming_tools.py:37-38 | piece i along the columns has the rows of A and sizes[i] columns, entry (r, c) being A[r][idx[i] + c] |
| ProgrammingTools.RowPieces | utils/programming_tools.py:39-40 | piece i along the rows has sizes[i] rows, row r being row idx[i] + r of A |
| ProgrammingTools.SplitRowsRoundTrip | utils/programming_tools.py:39-40 | sizes that add up to the rows: the row pieces stacked again give A |
| ProgrammingTools.SplitColumnsRoundTrip | utils/programming_tools.py:37-38 | sizes that add up to the columns: row r of the pieces side by side gives row r of A |
| ProgrammingTools.SplitColumnsExample | test_utils.py:26-30 | sizes [3, 3, 4] cut a 2 x 10 matrix into 2 x 3, 2 x 3 and 2 x 4 pieces |
| ProgrammingTools.SplitRowsExample | test_utils.py:32-36 | sizes [3, 3, 4] cut a 10 x 2 matrix into 3 x 2, 3 x 2 and 4 x 2 pieces |
| ProgrammingTools.ToPiece | utils/programming_tools.py:62 | the name is a prefix of the piece with no '=' in it, and it is the whole piece when there is no '='; a value exactly when the piece contains '='; the value then starts right after the '=' that ends the name and runs up to the next '=' |
| ProgrammingTools.ConfigString | utils/programming_tools.py:61 | the text after the last `analyze_<root>` of a key string. It only computes; ConfigStringAfterMarker and CompareMain.JobNameReadBack state which text it is |
| ProgrammingTools.ConfigPieces | utils/programming_tools.py:61-62 | one piece per `_`-separated item of the configuration text, the first one dropped |
| ProgrammingTools.KeyNames | utils/programming_tools.py:61-65 | there is one name per `_`-item of the configuration text after the first; name i is a prefix of item i + 1 with no '=' in it, the whole item when it holds no '=', and otherwise followed in the item by the first '=' |
| ProgrammingTools.ConfigStringAfterMarker | utils/programming_tools.py:61 | the configuration text is a suffix of the key string and holds no `analyze_<root>`; it is the whole key string when no marker occurs, and otherwise it follows right after a marker |
| ProgrammingTools.Collect | utils/programming_tools.py:59-76 | the dictionary of sets after all pieces, or the first error. It only computes; CollectMeaning and CollectErrSticky state its result and error |
| ProgrammingTools.ParamValues | utils/programming_tools.py:58-81 | the result of the function before its sets are sorted, NoKeys when there are no key strings. It only computes; GetParamValues is proved equal to it, and StringFails and CollectMeaning state its error and values |
| ProgrammingTools.CollectErrSticky | utils/programming_tools.py:67-76 | once a piece raises, later pieces change nothing |
| ProgrammingTools.RepeatedStep | utils/programming_tools.py:74-76 | a new piece adds its value exactly when its name was seen before |
| ProgrammingTools.RegisterMeaning | utils/programming_tools.py:67-76 | one piece succeeds exactly when it has a value that parses, and extends the keys and values as CollectMeaning says |
| ProgrammingTools.CollectMeaning | utils/programming_tools.py:59-76 | success exactly when every piece has a value that parses; the keys are exactly the names that occur; a key's set holds exactly the values of its second and later occurrences |
| ProgrammingTools.RegisterPieces | utils/programming_tools.py:67-76 | the loop over one string's pieces computes Collect on all pieces so far, stopping at the first error |
| ProgrammingTools.StringFails | utils/programming_tools.py:59-76 | a string whose pieces raise makes the whole call raise, with that error |
| ProgrammingTools.Insert | utils/programming_tools.py:79 | inserting x into an ascending list keeps it ascending, and the result holds exactly the list's elements and x |
| ProgrammingTools.SortSet | utils/programming_tools.py:79 | `sorted(list(s))` lists exactly the elements of s, ascending without repetition |
| ProgrammingTools.SortValues | utils/programming_tools.py:78-79 | every set is replaced by the sorted list of its elements, with the keys unchanged |
| ProgrammingTools.GetParamValues | utils/programming_tools.py:44-81 | it fails exactly when the parse fails (MissingValue when a piece has no '=', BadNumber when a value does not parse, NoKeys for an empty iterable), with the same error; otherwise key_order is the first string's names, the keys are those of the parse, and each list is the sorted set of the parse |
| PyBuiltins.ContainsIffMatch | compare_main.py:22 | `sep in s` exactly when some position of s starts an occurrence |
| PyBuiltins.ContainsIffSplits | compare_main.py:21-22 | `sep in s` exactly when splitting at sep gives at least two pieces |
| PyBuiltins.SplitJoin | utils/programming_tools.py:62 | characterises the splits at `_` and `=` on this line: the pieces, joined again with the separator, give back the string, so splitting loses no text |
| PyBuiltins.SplitFirst | compare_main.py:21 | the first piece is the text before the first occurrence of sep |
| PyBuiltins.SplitLast | utils/programming_tools.py:61 | the last piece is the text after the last occurrence of sep |
| PyBuiltins.SplitCharConcat | utils/programming_tools.py:62 | splitting at a character distributes over a join at that character |
| PyBuiltins.ReplaceChar | utils/programming_tools.py:69 | every `,` becomes `.` and every other character stays |
| PyBuiltins.NatToStringRoundTrip | gen_data/gen_data_utils.py:41 | the decimal digits of n read back give n |
| PyBuiltins.NatToStringInjective | gen_data/gen_data_utils.py:41 | distinct numbers print differently |
| CompareKeys.NewKeyBetweenMatches | compare_main.py:21 | the new key is the text after the first `compare_`, up to the next one or to the end |
| CompareKeys.NewKey | compare_main.py:21 | `k.split('compare_')[1]`, defined where `'compare_' in k`. It only computes; NewKeyBetweenMatches, NewKeyOfPrefixed and NewKeyOfInfixed state which text it is |
| CompareKeys.CompareArgs | compare_main.py:21-22 | the comprehension that cross_compare_main.py repeats at lines 19-20, entry by entry in iteration order. It only computes; CompareArgsKeys, CompareArgsLastWins, CompareArgsValues and UnmarkedIgnored state its keys and values |
| CompareKeys.CompareArgsKeys | compare_main.py:21-22 | a new key is present exactly when some input key containing `compare_` is renamed to it |
| CompareKeys.CompareArgsLastWins | compare_main.py:21-22 | the value of a new key is the value of the last input key renamed to it |
| CompareKeys.CompareArgsValues | compare_main.py:21-22 | every value of the result is carried over unchanged from the last input key renamed to its key |
| CompareKeys.UnmarkedIgnored | compare_main.py:22 | a key without `compare_` contributes nothing, wherever it stands |
| CompareKeys.NewKeyOfPrefixed | compare_main.py:21 | `compare_lr` becomes `lr` |
| CompareKeys.NewKeyOfInfixed | compare_main.py:21 | `x_compare_y` becomes `y` |
| CompareMain.AnalysisJobName | compare_main.py:14 | the job name is `analyze_` followed by the name |
| CompareMain.CompareRequest | compare_main.py:14-22 | the job name and the comparison arguments the script hands on. It only computes; CompareRequestMeaning states both |
| CompareMain.AnalysisJobNameInjective | compare_main.py:14 | different names give different analysis jobs |
| CompareMain.JobNameReadBack | compare_main.py:14 | the parameter parser, rooted at the name, reads a key of the analysis job back to its configuration text |
| CompareMain.CompareRequestMeaning | compare_main.py:14-22 | the request names the analysis job of the name, and its keys are exactly the renamed comparison keys |
| CrossCompareMain.CrossCompareRequest | cross_compare_main.py:19-22 | the job name (the name itself) and the comparison arguments the script hands on. It only computes; RequestsDiffer states both against the comparison script |
| CrossCompareMain.RequestsDiffer | cross_compare_main.py:19-22 | the cross-comparison script picks the same arguments as the comparison script, and names the job itself, without `analyze_` |

## Left out

- Reading the arguments, unpickling the argument bundle, the hard-coded paths and the calls into `wrappers` in both entry scripts. Both scripts also read `notebook_dir`; `wrappers` is not part of this model, so only the two values each script computes are modelled.
- Plotting, the activation functions, the cluster synchronisation script, and the checkpoint loss helpers. The helpers depend on `Simulation` from `core`, which is not part of this model.
- GenDataUtils.MarkovTaskAttempt: models one attempt of the retry loop only. The ergodicity test needs float averaging, a 1000th matrix power and rounding, so how many attempts the loop makes is not modelled.
- The random draws themselves: the permutations, the Bernoulli mask and the Gaussian noise are inputs. Their distributions are not modelled.
- The `Learning_Algorithm` base class is not part of this model. Its keyword handling is replaced by explicit optional constructor parameters. The network is the `Rnn` class with only the fields the rule reads and writes.
- Reinforce.MiconiReinforce.constructor: the trace starts as a zero matrix of the network's shape, not the scalar 0 of line 40. The two behave the same under numpy broadcasting, which is not modelled.
- `decay` is stored but never read by the update. The commented-out decayed trace update is not modelled.
- Floating point: all arithmetic is on `real`, with no rounding and no overflow.
- ProgrammingTools.GetParamValues: numeric parsing (`int`, then `float`) is a function given as a parameter, not Python's number grammar. It also does not model that an integer and a float of equal value are one element of a Python set.
- ProgrammingTools.SortSet: does not model Python's sorting algorithm, only the list it produces.
- ProgrammingTools.SplitWeightMatrix: does not model `np.squeeze`. Pieces stay two-dimensional even when a size is 1.
- ProgrammingTools.RGetAttr: objects are trees of named fields, and attributes computed by Python's attribute protocol are not modelled.
- GenDataUtils.ConcatenateDatasets: rows are of an abstract type, so `np.concatenate` raising on mismatched column counts is not modelled.
- The numpy arrays of the task helpers and the utilities are modelled as sequences of rows. The trace, the hidden average and the transition matrices are arrays.
