/**
 * Task and weight-construction helpers: the transition matrices of the
 * Markov task (with the idempotency forcing), the concatenation of two
 * datasets, and the hand-built flip-flop weights of Ceni and Livi (2019).
 */
module GenDataUtils {
  import opened Wrappers
  import opened PyBuiltins
  import opened Matrices

  // ---------------------------------------------------------------------
  // Transition functions on n states
  // ---------------------------------------------------------------------

  /** f sends each of the n states to a state. */
  predicate IsMap(f: seq<nat>, n: nat)
  {
    |f| == n && forall i :: 0 <= i < n ==> f[i] < n
  }

  /**
   * A result of `np.random.permutation(range(n))`: n states in some order,
   * each state occurring.
   */
  predicate IsPermutation(p: seq<nat>, n: nat)
  {
    IsMap(p, n) && forall s :: 0 <= s < n ==> Occurs(p, s)
  }

  /** State s occurs in p. */
  predicate Occurs(p: seq<nat>, s: nat)
  {
    exists t :: 0 <= t < |p| && p[t] == s
  }

  /** Some state is sent to c. */
  predicate InRange(f: seq<nat>, c: nat)
  {
    exists r :: 0 <= r < |f| && f[r] == c
  }

  /** One pass of the forcing loop: a state something is sent to becomes a fixed point. */
  function ForceStep(f: seq<nat>, k: nat): (g: seq<nat>)
    ensures |g| == |f|
  {
    if k < |f| && InRange(f, k) then f[k := k] else f
  }

  /** The forcing loop run over the states of order, first to last. */
  function Force(f: seq<nat>, order: seq<nat>): (g: seq<nat>)
    ensures |g| == |f|
    decreases |order|
  {
    if order == [] then f
    else ForceStep(Force(f, order[..|order| - 1]), order[|order| - 1])
  }

  /** The function a transition matrix of the task stands for. */
  function Transition(perm: seq<nat>, idem: bool, order: seq<nat>): seq<nat>
  {
    if idem then Force(perm, order) else perm
  }

  /** Forcing keeps a map a map. */
  lemma {:induction false} ForceKeepsMap(f: seq<nat>, order: seq<nat>, n: nat)
    requires IsMap(f, n) && forall t :: 0 <= t < |order| ==> order[t] < n
    ensures IsMap(Force(f, order), n)
    decreases |order|
  {
    if order != [] {
      ForceKeepsMap(f, order[..|order| - 1], n);
    }
  }

  /** Every visited state is a fixed point of f or is sent to by no state. */
  ghost predicate Settled(f: seq<nat>, visited: seq<nat>)
  {
    forall t :: 0 <= t < |visited| ==>
      visited[t] < |f| && (f[visited[t]] == visited[t] || !InRange(f, visited[t]))
  }

  /** One pass keeps the states settled before it settled, and settles its own. */
  lemma {:induction false} SettledStep(g: seq<nat>, visited: seq<nat>, k: nat, n: nat)
    requires IsMap(g, n) && k < n && Settled(g, visited)
    ensures Settled(ForceStep(g, k), visited + [k])
  {
    var h := ForceStep(g, k);
    var v' := visited + [k];
    forall t | 0 <= t < |v'|
      ensures v'[t] < |h| && (h[v'[t]] == v'[t] || !InRange(h, v'[t]))
    {
      var v := v'[t];
      if t < |visited| && InRange(g, k) && g[v] != v {
        // v was reached by nothing, and only row k changed, to reach k
        assert v != k;
        assert forall r :: 0 <= r < |h| ==> h[r] != v;
      }
    }
  }

  /** After the loop has run over order, every state of order is settled. */
  lemma {:induction false} ForceSettles(f: seq<nat>, order: seq<nat>, n: nat)
    requires IsMap(f, n) && forall t :: 0 <= t < |order| ==> order[t] < n
    ensures Settled(Force(f, order), order)
    decreases |order|
  {
    if order != [] {
      var prefix := order[..|order| - 1];
      ForceSettles(f, prefix, n);
      ForceKeepsMap(f, prefix, n);
      SettledStep(Force(f, prefix), prefix, order[|order| - 1], n);
      assert prefix + [order[|order| - 1]] == order;
    }
  }

  /**
   * Whatever the processing order, once every state has been visited the
   * forced function is idempotent: f(f(i)) == f(i).
   */
  lemma {:induction false} ForceIdempotent(f: seq<nat>, order: seq<nat>, n: nat)
    requires IsMap(f, n) && IsPermutation(order, n)
    ensures IsMap(Force(f, order), n)
    ensures var g := Force(f, order); forall i :: 0 <= i < n ==> g[g[i]] == g[i]
  {
    var g := Force(f, order);
    ForceKeepsMap(f, order, n);
    ForceSettles(f, order, n);
    forall i | 0 <= i < n
      ensures g[g[i]] == g[i]
    {
      assert Occurs(order, g[i]);
      var t :| 0 <= t < n && order[t] == g[i];
      assert InRange(g, g[i]);
    }
  }

  // ---------------------------------------------------------------------
  // 0/1 matrices of transition functions
  // ---------------------------------------------------------------------

  /** T is the 0/1 matrix of f: row i is the unit row of f[i]. */
  ghost predicate IsMatrixOf(T: array2<real>, f: seq<nat>)
    reads T
  {
    T.Length0 == |f| && T.Length1 == |f| &&
    forall i, j :: 0 <= i < |f| && 0 <= j < |f| ==> T[i, j] == if f[i] == j then 1.0 else 0.0
  }

  /** `T[:upTo, c].sum()`. */
  function ColumnSum(T: array2<real>, c: nat, upTo: nat): real
    reads T
    requires c < T.Length1 && upTo <= T.Length0
  {
    if upTo == 0 then 0.0 else ColumnSum(T, c, upTo - 1) + T[upTo - 1, c]
  }

  /** A column of the matrix of f has a positive sum exactly when some state is sent there. */
  lemma {:induction false} ColumnSumCounts(T: array2<real>, f: seq<nat>, c: nat, upTo: nat)
    requires IsMatrixOf(T, f) && c < |f| && upTo <= |f|
    ensures ColumnSum(T, c, upTo) >= 0.0
    ensures ColumnSum(T, c, upTo) > 0.0 <==> exists r :: 0 <= r < upTo && f[r] == c
  {
    if upTo > 0 {
      ColumnSumCounts(T, f, c, upTo - 1);
      if f[upTo - 1] == c {
        assert ColumnSum(T, c, upTo) >= 1.0;
      }
    }
  }

  /** `T.dot(T)[i, j]`, summed over the first upTo middle indices. */
  function ProductEntry(T: array2<real>, i: nat, j: nat, upTo: nat): real
    reads T
    requires i < T.Length0 && j < T.Length1 && upTo <= T.Length0 && upTo <= T.Length1
  {
    if upTo == 0 then 0.0
    else ProductEntry(T, i, j, upTo - 1) + T[i, upTo - 1] * T[upTo - 1, j]
  }

  /** `(T == T.dot(T)).all()` for a square T. */
  ghost predicate IsIdempotent(T: array2<real>)
    reads T
  {
    T.Length0 == T.Length1 &&
    forall i, j :: 0 <= i < T.Length0 && 0 <= j < T.Length1 ==> ProductEntry(T, i, j, T.Length0) == T[i, j]
  }

  /** The square of the matrix of f is the matrix of f composed with itself. */
  lemma {:induction false} ProductOfMatrixOf(T: array2<real>, f: seq<nat>, n: nat, i: nat, j: nat, upTo: nat)
    requires IsMatrixOf(T, f) && IsMap(f, n) && i < n && j < n && upTo <= n
    ensures ProductEntry(T, i, j, upTo) == if f[i] < upTo && f[f[i]] == j then 1.0 else 0.0
  {
    if upTo > 0 {
      ProductOfMatrixOf(T, f, n, i, j, upTo - 1);
    }
  }

  /** The matrix of f is idempotent exactly when f is. */
  lemma {:induction false} IdempotentIff(T: array2<real>, f: seq<nat>, n: nat)
    requires IsMatrixOf(T, f) && IsMap(f, n)
    ensures IsIdempotent(T) <==> forall i :: 0 <= i < n ==> f[f[i]] == f[i]
  {
    forall i, j | 0 <= i < n && 0 <= j < n
      ensures ProductEntry(T, i, j, n) == if f[f[i]] == j then 1.0 else 0.0
    {
      ProductOfMatrixOf(T, f, n, i, j, n);
    }
    if IsIdempotent(T) {
      forall i | 0 <= i < n
        ensures f[f[i]] == f[i]
      {
        assert ProductEntry(T, i, f[i], n) == T[i, f[i]] == 1.0;
      }
    }
  }

  /**
   * One matrix of the task (lines 26-39): the permutation matrix of perm,
   * then, when idem, the forcing loop over the states in the given order.
   */
  method TransitionMatrix(n: nat, perm: seq<nat>, idem: bool, order: seq<nat>) returns (T: array2<real>)
    requires IsPermutation(perm, n) && (idem ==> IsPermutation(order, n))
    ensures fresh(T)
    ensures IsMatrixOf(T, Transition(perm, idem, order))
    ensures IsMap(Transition(perm, idem, order), n)
    ensures idem ==> IsIdempotent(T)
  {
    T := new real[n, n]((_, _) => 0.0);
    for i := 0 to n
      invariant forall r, c :: 0 <= r < n && 0 <= c < n ==> T[r, c] == if r < i && perm[r] == c then 1.0 else 0.0
    {
      T[i, perm[i]] := 1.0;
    }
    if idem {
      ghost var f := perm;
      for t := 0 to n
        invariant IsMap(f, n) && f == Force(perm, order[..t]) && IsMatrixOf(T, f)
      {
        var k := order[t];
        ColumnSumCounts(T, f, k, n);
        if ColumnSum(T, k, n) > 0.0 {
          forall j | 0 <= j < n {
            T[k, j] := if j == k then 1.0 else 0.0;
          }
        }
        assert order[..t + 1][..t] == order[..t];
        f := ForceStep(f, k);
      }
      assert order[..n] == order;
      ForceIdempotent(perm, order, n);
      IdempotentIff(T, f, n);
    }
  }

  /** `'input_{}'.format(i)`. */
  function InputKey(i: nat): string
  {
    "input_" + NatToString(i)
  }

  /** Different inputs get different keys. */
  lemma {:induction false} InputKeyInjective(i: nat, j: nat)
    requires InputKey(i) == InputKey(j)
    ensures i == j
  {
    var p := "input_";
    assert InputKey(i)[|p|..] == NatToString(i);
    assert InputKey(j)[|p|..] == NatToString(j);
    NatToStringInjective(i, j);
  }

  /**
   * One attempt of the retry loop of the Markov task (lines 15-41): the
   * fixed points are the unit rows, and input i gets the matrix of
   * perms[i], forced along orders[i] when idem. The permutations are the
   * random draws.
   */
  method MarkovTaskAttempt(oneHotDim: nat, nInputs: nat, idem: bool, perms: seq<seq<nat>>, orders: seq<seq<nat>>)
    returns (fps: seq<seq<real>>, tDict: map<string, array2<real>>)
    requires |perms| == nInputs && |orders| == nInputs
    requires forall i :: 0 <= i < nInputs ==> IsPermutation(perms[i], oneHotDim) && (idem ==> IsPermutation(orders[i], oneHotDim))
    ensures fps == Identity(oneHotDim)
    ensures tDict.Keys == set i | 0 <= i < nInputs :: InputKey(i)
    ensures forall i :: 0 <= i < nInputs ==>
      fresh(tDict[InputKey(i)]) && IsMatrixOf(tDict[InputKey(i)], Transition(perms[i], idem, orders[i]))
    ensures idem ==> forall key :: key in tDict ==> IsIdempotent(tDict[key])
  {
    fps := Identity(oneHotDim);
    var nStates := |fps|;
    tDict := map[];
    for i := 0 to nInputs
      invariant tDict.Keys == set u | 0 <= u < i :: InputKey(u)
      invariant forall u :: 0 <= u < i ==>
        fresh(tDict[InputKey(u)]) && IsMatrixOf(tDict[InputKey(u)], Transition(perms[u], idem, orders[u]))
      invariant idem ==> forall key :: key in tDict ==> IsIdempotent(tDict[key])
    {
      var T := TransitionMatrix(nStates, perms[i], idem, orders[i]);
      forall u | 0 <= u < i
        ensures InputKey(u) != InputKey(i)
      {
        if InputKey(u) == InputKey(i) {
          InputKeyInjective(u, i);
        }
      }
      tDict := tDict[InputKey(i) := T];
    }
  }

  // ---------------------------------------------------------------------
  // Datasets
  // ---------------------------------------------------------------------

  /** `{dataset: {io: rows}}`, as built by the task generators. */
  type Datasets<R> = map<string, map<string, seq<R>>>

  /** The pairs `product(['train', 'test'], ['X', 'Y'])`. */
  const Parts: seq<(string, string)> := [("train", "X"), ("train", "Y"), ("test", "X"), ("test", "Y")]

  /** `data[dataset][io]` exists. */
  predicate Present<R>(data: Datasets<R>, part: (string, string))
  {
    part.0 in data && part.1 in data[part.0]
  }

  /** The io keys of dataset ds among the first t parts. */
  function PartsBefore(ds: string, t: nat): set<string>
    requires t <= |Parts|
  {
    if t == 0 then {}
    else PartsBefore(ds, t - 1) + if Parts[t - 1].0 == ds then {Parts[t - 1].1} else {}
  }

  /**
   * `concatenate_datasets`: exactly the four parts, each data1's rows
   * followed by data2's; other keys are dropped. A part missing from
   * either input raises KeyError, here None.
   */
  method ConcatenateDatasets<R>(data1: Datasets<R>, data2: Datasets<R>) returns (r: Option<Datasets<R>>)
    ensures r.Some? <==> forall t :: 0 <= t < |Parts| ==> Present(data1, Parts[t]) && Present(data2, Parts[t])
    ensures r.Some? ==> r.value.Keys == {"train", "test"}
    ensures r.Some? ==> forall ds :: ds in r.value ==> r.value[ds].Keys == {"X", "Y"}
    ensures r.Some? ==> forall t :: 0 <= t < |Parts| ==>
      var (ds, io) := Parts[t]; r.value[ds][io] == data1[ds][io] + data2[ds][io]
  {
    var data: Datasets<R> := map["train" := map[], "test" := map[]];
    for t := 0 to |Parts|
      invariant ConcatInvariant(data1, data2, data, t)
    {
      var (ds, io) := Parts[t];
      if !(Present(data1, Parts[t]) && Present(data2, Parts[t])) {
        return None;
      }
      ConcatStep(data1, data2, data, t);
      data := data[ds := data[ds][io := data1[ds][io] + data2[ds][io]]];
    }
    PartsBeforeAll();
    ConcatenatedShape(data);
    r := Some(data);
  }

  /** What the loop of concatenate_datasets has built after t parts. */
  ghost predicate ConcatInvariant<R>(data1: Datasets<R>, data2: Datasets<R>, data: Datasets<R>, t: nat)
    requires t <= |Parts|
  {
    && data.Keys == {"train", "test"}
    && data["train"].Keys == PartsBefore("train", t) && data["test"].Keys == PartsBefore("test", t)
    && (forall u :: 0 <= u < t ==> Present(data1, Parts[u]) && Present(data2, Parts[u]))
    && (forall u :: 0 <= u < t ==> Present(data, Parts[u]))
    && (forall u :: 0 <= u < t ==>
          data[Parts[u].0][Parts[u].1] == data1[Parts[u].0][Parts[u].1] + data2[Parts[u].0][Parts[u].1])
  }

  /** The four parts are distinct. */
  lemma {:induction false} PartsDistinct(u: nat, t: nat)
    requires u < t < |Parts|
    ensures Parts[u] != Parts[t]
  {
  }

  /** One pass of the loop keeps ConcatInvariant. */
  lemma {:induction false} ConcatStep<R>(data1: Datasets<R>, data2: Datasets<R>, data: Datasets<R>, t: nat)
    requires t < |Parts| && ConcatInvariant(data1, data2, data, t)
    requires Present(data1, Parts[t]) && Present(data2, Parts[t])
    ensures var (ds, io) := Parts[t];
      ConcatInvariant(data1, data2, data[ds := data[ds][io := data1[ds][io] + data2[ds][io]]], t + 1)
  {
    var (ds, io) := Parts[t];
    var inner := data[ds][io := data1[ds][io] + data2[ds][io]];
    var next := data[ds := inner];
    assert ds in data;
    assert next.Keys == data.Keys;
    assert next[ds].Keys == data[ds].Keys + {io};
    forall u | 0 <= u < t + 1
      ensures Present(next, Parts[u]) &&
        next[Parts[u].0][Parts[u].1] == data1[Parts[u].0][Parts[u].1] + data2[Parts[u].0][Parts[u].1]
    {
      if u < t {
        PartsDistinct(u, t);
      }
    }
  }

  /** Every dataset gets both its io keys from the four parts. */
  lemma {:induction false} PartsBeforeAll()
    ensures PartsBefore("train", 4) == {"X", "Y"} && PartsBefore("test", 4) == {"X", "Y"}
  {
    assert PartsBefore("train", 2) == {"X", "Y"};
    assert PartsBefore("test", 2) == {};
    assert PartsBefore("train", 4) == PartsBefore("train", 2);
  }

  /** A result with keys train and test, each with keys X and Y, has exactly those inner keys. */
  lemma {:induction false} ConcatenatedShape<R>(data: Datasets<R>)
    requires data.Keys == {"train", "test"}
    requires data["train"].Keys == {"X", "Y"} && data["test"].Keys == {"X", "Y"}
    ensures forall ds :: ds in data ==> data[ds].Keys == {"X", "Y"}
  {
  }

  // ---------------------------------------------------------------------
  // Flip-flop weights
  // ---------------------------------------------------------------------

  /** Index k of unit pair i: the pairs of the flip-flop network are laid out side by side. */
  function Unit(i: nat, k: nat): nat
  {
    2 * i + k
  }

  /** `np.vstack(blocks)`: the rows of the blocks, block after block. */
  function VStack(blocks: seq<seq<seq<real>>>): seq<seq<real>>
  {
    if blocks == [] then [] else blocks[0] + VStack(blocks[1..])
  }

  /** Stacking 2-row blocks: row 2 * b + k of the result is row k of block b. */
  lemma {:induction false} VStackPairs(blocks: seq<seq<seq<real>>>, cols: nat)
    requires forall b :: 0 <= b < |blocks| ==> |blocks[b]| == 2
    requires forall b, q :: 0 <= b < |blocks| && 0 <= q < 2 ==> |blocks[b][q]| == cols
    ensures IsMatrix(VStack(blocks), 2 * |blocks|, cols)
    ensures forall b, k :: 0 <= b < |blocks| && 0 <= k < 2 ==> VStack(blocks)[Unit(b, k)] == blocks[b][k]
  {
    if blocks != [] {
      var tail := blocks[1..];
      assert forall b :: 0 <= b < |tail| ==> tail[b] == blocks[b + 1];
      VStackPairs(tail, cols);
      var rest := VStack(tail);
      var v := VStack(blocks);
      assert v == blocks[0] + rest;
      forall r | 0 <= r < |v|
        ensures |v[r]| == cols
      {
        if r >= 2 {
          assert v[r] == rest[r - 2];
        }
      }
      forall b, k | 0 <= b < |blocks| && 0 <= k < 2
        ensures v[Unit(b, k)] == blocks[b][k]
      {
        if b > 0 {
          assert Unit(b, k) - 2 == Unit(b - 1, k);
          assert v[Unit(b, k)] == rest[Unit(b - 1, k)];
        }
      }
    }
  }

  /** Row r of every block, side by side. */
  function RowConcat(blocks: seq<seq<seq<real>>>, r: nat): seq<real>
    requires forall b :: 0 <= b < |blocks| ==> r < |blocks[b]|
  {
    if blocks == [] then [] else blocks[0][r] + RowConcat(blocks[1..], r)
  }

  /** `np.hstack(blocks)` for blocks of rows rows each. */
  function HStack(blocks: seq<seq<seq<real>>>, rows: nat): seq<seq<real>>
    requires forall b :: 0 <= b < |blocks| ==> |blocks[b]| == rows
  {
    seq(rows, r requires 0 <= r < rows => RowConcat(blocks, r))
  }

  /** Row r of 2-column blocks side by side: entry (b, k) is entry k of that row of block b. */
  lemma {:induction false} RowConcatPairs(blocks: seq<seq<seq<real>>>, rows: nat, r: nat)
    requires forall b :: 0 <= b < |blocks| ==> |blocks[b]| == rows
    requires forall b, q :: 0 <= b < |blocks| && 0 <= q < rows ==> |blocks[b][q]| == 2
    requires r < rows
    ensures |RowConcat(blocks, r)| == 2 * |blocks|
    ensures forall b, k :: 0 <= b < |blocks| && 0 <= k < 2 ==> RowConcat(blocks, r)[Unit(b, k)] == blocks[b][r][k]
    decreases |blocks|
  {
    if blocks != [] {
      var tail := blocks[1..];
      RowConcatPairs(tail, rows, r);
      var rest := RowConcat(tail, r);
      assert RowConcat(blocks, r) == blocks[0][r] + rest;
      forall b, k | 0 <= b < |blocks| && 0 <= k < 2
        ensures RowConcat(blocks, r)[Unit(b, k)] == blocks[b][r][k]
      {
        if b > 0 {
          assert Unit(b, k) - 2 == Unit(b - 1, k);
          assert tail[b - 1] == blocks[b];
        }
      }
    }
  }

  /** Side by side 2-column blocks: entry (r, (b, k)) is entry (r, k) of block b. */
  lemma {:induction false} HStackPairs(blocks: seq<seq<seq<real>>>, rows: nat)
    requires forall b :: 0 <= b < |blocks| ==> |blocks[b]| == rows
    requires forall b, q :: 0 <= b < |blocks| && 0 <= q < rows ==> |blocks[b][q]| == 2
    ensures IsMatrix(HStack(blocks, rows), rows, 2 * |blocks|)
    ensures forall r, b, k :: 0 <= r < rows && 0 <= b < |blocks| && 0 <= k < 2 ==>
      HStack(blocks, rows)[r][Unit(b, k)] == blocks[b][r][k]
  {
    forall r | 0 <= r < rows
      ensures |HStack(blocks, rows)[r]| == 2 * |blocks|
      ensures forall b, k :: 0 <= b < |blocks| && 0 <= k < 2 ==> HStack(blocks, rows)[r][Unit(b, k)] == blocks[b][r][k]
    {
      RowConcatPairs(blocks, rows, r);
    }
  }

  /** `np.kron(a, b)` for a 2x2 right factor b. */
  function KronPair(a: seq<seq<real>>, rows: nat, cols: nat, b: seq<seq<real>>): (k: seq<seq<real>>)
    requires IsMatrix(a, rows, cols) && IsMatrix(b, 2, 2)
    ensures IsMatrix(k, 2 * rows, 2 * cols)
  {
    seq(2 * rows, i requires 0 <= i < 2 * rows =>
      seq(2 * cols, j requires 0 <= j < 2 * cols => a[i / 2][j / 2] * b[i % 2][j % 2]))
  }

  /** Entry ((i, k), (j, l)) of the Kronecker product is a[i][j] * b[k][l]. */
  lemma {:induction false} KronPairEntry(a: seq<seq<real>>, rows: nat, cols: nat, b: seq<seq<real>>, i: nat, k: nat, j: nat, l: nat)
    requires IsMatrix(a, rows, cols) && IsMatrix(b, 2, 2)
    requires i < rows && k < 2 && j < cols && l < 2
    ensures KronPair(a, rows, cols, b)[Unit(i, k)][Unit(j, l)] == a[i][j] * b[k][l]
  {
    UnitDivMod(i, k);
    UnitDivMod(j, l);
  }

  /** Unit i, member k of the pair, is recovered by halving. */
  lemma {:induction false} UnitDivMod(i: nat, k: nat)
    requires k < 2
    ensures Unit(i, k) / 2 == i && Unit(i, k) % 2 == k
  {
    assert Unit(i, k) == 2 * i + k;
  }

  /** The recurrent block of every flip-flop unit pair. */
  function FlipFlopBlock(s: real): (b: seq<seq<real>>)
    ensures IsMatrix(b, 2, 2)
  {
    [[1.1, 4.0], [-s, 4.0]]
  }

  /** The weights of the hand-tuned flip-flop network. */
  datatype FlipFlopWeights = FlipFlopWeights(
    wIn: seq<seq<real>>, wRec: seq<seq<real>>, wOut: seq<seq<real>>, bRec: seq<real>, bOut: seq<real>)

  /** Block i of W_in before scaling: 2 x n, with a 1 at (1, i). */
  function InBlock(n: nat, i: nat): (b: seq<seq<real>>)
    requires i < n
    ensures IsMatrix(b, 2, n)
  {
    [Zeros(n), Zeros(n)[i := 1.0]]
  }

  /** Block i of W_out: n x 2, with a 1 at (i, 0). */
  function OutBlock(n: nat, i: nat): (b: seq<seq<real>>)
    ensures IsMatrix(b, n, 2)
  {
    seq(n, r => if r == i then [1.0, 0.0] else [0.0, 0.0])
  }

  /** The list `W_in` once the loop has appended the first i blocks. */
  function InBlocks(n: nat, i: nat): (bs: seq<seq<seq<real>>>)
    requires i <= n
    ensures |bs| == i
  {
    seq(i, b requires 0 <= b < i => InBlock(n, b))
  }

  /** The list `W_out` once the loop has appended the first i blocks. */
  function OutBlocks(n: nat, i: nat): (bs: seq<seq<seq<real>>>)
    ensures |bs| == i
  {
    seq(i, b requires 0 <= b < i => OutBlock(n, b))
  }

  /** `w_in * np.vstack(W_in)` reads input i on the second unit of pair i only. */
  lemma {:induction false} FlipFlopInput(n: nat, wIn: real)
    ensures IsMatrix(VStack(InBlocks(n, n)), 2 * n, n)
    ensures forall i, k, c :: 0 <= i < n && 0 <= k < 2 && 0 <= c < n ==>
      Scale(wIn, VStack(InBlocks(n, n)), 2 * n, n)[Unit(i, k)][c] == if k == 1 && c == i then wIn else 0.0
  {
    var blocks := InBlocks(n, n);
    VStackPairs(blocks, n);
  }

  /** `np.hstack(W_out)` reads out the first unit of pair i to output i only. */
  lemma {:induction false} FlipFlopOutput(n: nat)
    ensures IsMatrix(HStack(OutBlocks(n, n), n), n, 2 * n)
    ensures forall c, i, k :: 0 <= c < n && 0 <= i < n && 0 <= k < 2 ==>
      HStack(OutBlocks(n, n), n)[c][Unit(i, k)] == if k == 0 && c == i then 1.0 else 0.0
  {
    var blocks := OutBlocks(n, n);
    HStackPairs(blocks, n);
  }

  /** `np.kron(np.eye(n), B)` is block diagonal with the block B. */
  lemma {:induction false} FlipFlopRecurrence(n: nat, s: real)
    ensures IsMatrix(KronPair(Identity(n), n, n, FlipFlopBlock(s)), 2 * n, 2 * n)
    ensures forall i, k, j, l :: 0 <= i < n && 0 <= k < 2 && 0 <= j < n && 0 <= l < 2 ==>
      KronPair(Identity(n), n, n, FlipFlopBlock(s))[Unit(i, k)][Unit(j, l)] == if i == j then FlipFlopBlock(s)[k][l] else 0.0
  {
    forall i, k, j, l | 0 <= i < n && 0 <= k < 2 && 0 <= j < n && 0 <= l < 2
      ensures KronPair(Identity(n), n, n, FlipFlopBlock(s))[Unit(i, k)][Unit(j, l)] == if i == j then FlipFlopBlock(s)[k][l] else 0.0
    {
      KronPairEntry(Identity(n), n, n, FlipFlopBlock(s), i, k, j, l);
    }
  }

  /**
   * `Flip_Flop_Ceni_Livi_solution(s, w_in, n)`. Unit pair i (rows 2i and
   * 2i + 1) reads input i on its second unit and is read out on its first;
   * the recurrent matrix is block diagonal with the block [[1.1, 4], [-s, 4]];
   * the biases are 0. With n == 0 `np.vstack([])` raises, here None.
   */
  method FlipFlopCeniLiviSolution(s: real, wIn: real, n: nat) returns (r: Option<FlipFlopWeights>)
    ensures r.None? <==> n == 0
    ensures r.Some? ==> IsMatrix(r.value.wIn, 2 * n, n)
    ensures r.Some? ==> forall i, k, c :: 0 <= i < n && 0 <= k < 2 && 0 <= c < n ==>
      r.value.wIn[Unit(i, k)][c] == if k == 1 && c == i then wIn else 0.0
    ensures r.Some? ==> IsMatrix(r.value.wOut, n, 2 * n)
    ensures r.Some? ==> forall c, i, k :: 0 <= c < n && 0 <= i < n && 0 <= k < 2 ==>
      r.value.wOut[c][Unit(i, k)] == if k == 0 && c == i then 1.0 else 0.0
    ensures r.Some? ==> IsMatrix(r.value.wRec, 2 * n, 2 * n)
    ensures r.Some? ==> forall i, k, j, l :: 0 <= i < n && 0 <= k < 2 && 0 <= j < n && 0 <= l < 2 ==>
      r.value.wRec[Unit(i, k)][Unit(j, l)] == if i == j then FlipFlopBlock(s)[k][l] else 0.0
    ensures r.Some? ==> r.value.bRec == Zeros(2 * n) && r.value.bOut == Zeros(n)
  {
    var inBlocks: seq<seq<seq<real>>> := [];
    var outBlocks: seq<seq<seq<real>>> := [];
    for i := 0 to n
      invariant inBlocks == InBlocks(n, i) && outBlocks == OutBlocks(n, i)
    {
      inBlocks := inBlocks + [InBlock(n, i)];
      outBlocks := outBlocks + [OutBlock(n, i)];
    }
    if n == 0 {
      return None;
    }
    FlipFlopInput(n, wIn);
    FlipFlopOutput(n);
    FlipFlopRecurrence(n, s);
    var wInM := Scale(wIn, VStack(inBlocks), 2 * n, n);
    var wOutM := HStack(outBlocks, n);
    var wRec := KronPair(Identity(n), n, n, FlipFlopBlock(s));
    r := Some(FlipFlopWeights(wInM, wRec, wOutM, Zeros(2 * n), Zeros(n)));
  }
}
