/**
 * The reward-modulated eligibility-trace rule of learning_algorithms/Miconi_REINFORCE.py.
 *
 * The learner keeps a running average of the hidden state, a trace matrix
 * that accumulates the cube of the outer product of the hidden state's
 * deviation from that average with the presynaptic vector
 * (previous activation, input, bias 1), and a smoothed loss per trial type.
 * After each update it perturbs the network's hidden state in place with
 * masked noise; its gradient estimate is the loss advantage times the trace.
 *
 * The two random draws of an update are inputs: the Bernoulli mask as a
 * sequence of booleans and the Gaussian draw as a standard-normal sample
 * that the update scales by sigma (a draw of N(0, sigma) is sigma times a
 * draw of N(0, 1)).
 */
module Reinforce {
  import opened Wrappers
  import opened Matrices

  // ---------------------------------------------------------------------
  // The arithmetic of one update, on values
  // ---------------------------------------------------------------------

  /** `(1 - d) * avg + d * x`: one step of an exponential moving average. */
  function Blend(avg: real, x: real, d: real): real
  {
    (1.0 - d) * avg + d * x
  }

  /** A step of the moving average with a rate in [0, 1] lands between the old average and the new sample. */
  lemma {:induction false} BlendBetween(avg: real, x: real, d: real)
    requires 0.0 <= d <= 1.0
    ensures avg <= x ==> avg <= Blend(avg, x, d) <= x
    ensures x <= avg ==> x <= Blend(avg, x, d) <= avg
  {
    assert Blend(avg, x, d) == avg + d * (x - avg);
    if avg <= x {
      ScaleBetween(d, x - avg);
    } else {
      ScaleBetween(d, avg - x);
      assert d * (x - avg) == -(d * (avg - x));
    }
  }

  /** A fraction of a non-negative amount lies between zero and the amount. */
  lemma {:induction false} ScaleBetween(d: real, e: real)
    requires 0.0 <= d <= 1.0 && 0.0 <= e
    ensures 0.0 <= d * e <= e
  {
    assert e - d * e == (1.0 - d) * e;
  }

  /** The moving average applied entry by entry (line 57 of the rule). */
  function Smooth(avg: seq<real>, h: seq<real>, d: real): (r: seq<real>)
    requires |avg| == |h|
    ensures |r| == |avg|
  {
    seq(|avg|, i requires 0 <= i < |avg| => Blend(avg[i], h[i], d))
  }

  /** With a rate in [0, 1], each entry of the new hidden average lies between the old average and the hidden state. */
  lemma {:induction false} SmoothBetween(avg: seq<real>, h: seq<real>, d: real, i: nat)
    requires |avg| == |h| && 0.0 <= d <= 1.0 && i < |avg|
    ensures avg[i] <= h[i] ==> avg[i] <= Smooth(avg, h, d)[i] <= h[i]
    ensures h[i] <= avg[i] ==> h[i] <= Smooth(avg, h, d)[i] <= avg[i]
  {
    BlendBetween(avg[i], h[i], d);
  }

  /** `np.concatenate([a_prev, x, [1]])`: the presynaptic vector with its bias entry. */
  function AHat(aPrev: seq<real>, x: seq<real>): (r: seq<real>)
    ensures |r| == |aPrev| + |x| + 1
  {
    aPrev + x + [1.0]
  }

  /** `u - v` for vectors of one length. */
  function Sub(u: seq<real>, v: seq<real>): (r: seq<real>)
    requires |u| == |v|
    ensures |r| == |u|
  {
    seq(|u|, i requires 0 <= i < |u| => u[i] - v[i])
  }

  /** `u + v` for vectors of one length. */
  function Add(u: seq<real>, v: seq<real>): (r: seq<real>)
    requires |u| == |v|
    ensures |r| == |u|
  {
    seq(|u|, i requires 0 <= i < |u| => u[i] + v[i])
  }

  function Cube(r: real): real
  {
    r * r * r
  }

  /** `np.outer(u, v)`. */
  function Outer(u: seq<real>, v: seq<real>): (m: seq<seq<real>>)
    ensures IsMatrix(m, |u|, |v|)
  {
    seq(|u|, i requires 0 <= i < |u| => seq(|v|, j requires 0 <= j < |v| => u[i] * v[j]))
  }

  /** `e + m ** 3`: the trace grows by the cube of every entry of the instantaneous term. */
  function AddCubes(e: seq<seq<real>>, m: seq<seq<real>>, rows: nat, cols: nat): (r: seq<seq<real>>)
    requires IsMatrix(e, rows, cols) && IsMatrix(m, rows, cols)
    ensures IsMatrix(r, rows, cols)
  {
    seq(rows, i requires 0 <= i < rows => seq(cols, j requires 0 <= j < cols => e[i][j] + Cube(m[i][j])))
  }

  /**
   * `binomial(1, p) * normal(0, sigma)` with the two draws given: where the
   * mask is off the entry is 0, elsewhere it is sigma times the draw.
   */
  function Perturbation(mask: seq<bool>, sigma: real, z: seq<real>): (r: seq<real>)
    requires |mask| == |z|
    ensures |r| == |mask|
  {
    seq(|mask|, i requires 0 <= i < |mask| => (if mask[i] then 1.0 else 0.0) * (sigma * z[i]))
  }

  /** `binomial(1, p)` at line 74 is defined: it raises ValueError unless 0 <= p <= 1. */
  predicate MaskDefined(p: real)
  {
    0.0 <= p <= 1.0
  }

  /** `normal(0, sigma)` at line 75 is defined: it raises ValueError when sigma < 0. */
  predicate NoiseDefined(sigma: real)
  {
    0.0 <= sigma
  }

  /** Both draws of lines 74-75 are defined. */
  predicate DrawsDefined(p: real, sigma: real)
  {
    MaskDefined(p) && NoiseDefined(sigma)
  }

  /** The 0/1 vector of a Bernoulli mask: what line 74 stores in `pert`. */
  function MaskVector(mask: seq<bool>): (r: seq<real>)
    ensures |r| == |mask|
    ensures forall i :: 0 <= i < |mask| ==> (r[i] == 1.0 <==> mask[i]) && (r[i] == 0.0 <==> !mask[i])
  {
    seq(|mask|, i requires 0 <= i < |mask| => if mask[i] then 1.0 else 0.0)
  }

  /** Python list indexing accepts -n <= i < n; anything else raises IndexError. */
  predicate ValidIndex(i: int, n: nat)
  {
    -(n as int) <= i < n
  }

  /** The position a valid Python index refers to. */
  function NormIndex(i: int, n: nat): (k: nat)
    requires ValidIndex(i, n)
    ensures k < n && (0 <= i ==> k == i) && (i < 0 ==> k == n + i)
  {
    if i < 0 then n + i else i
  }

  /**
   * Each trace entry grows by exactly the cube of the deviation times the
   * presynaptic entry, and the bias column by the cube of the deviation alone.
   */
  lemma {:induction false} TraceGrowth(e: seq<seq<real>>, d: seq<real>, aPrev: seq<real>, x: seq<real>, i: nat, j: nat)
    requires IsMatrix(e, |d|, |aPrev| + |x| + 1) && i < |d| && j <= |aPrev| + |x|
    ensures var cols := |aPrev| + |x| + 1;
      var grown := AddCubes(e, Outer(d, AHat(aPrev, x)), |d|, cols);
      && grown[i][j] - e[i][j] == Cube(d[i] * AHat(aPrev, x)[j])
      && grown[i][cols - 1] == e[i][cols - 1] + Cube(d[i])
  {
    var cols := |aPrev| + |x| + 1;
    assert AHat(aPrev, x)[cols - 1] == 1.0;
  }

  /** Entries whose mask is off are not perturbed, and with sigma = 0 no entry is. */
  lemma {:induction false} PerturbationVanishes(h: seq<real>, mask: seq<bool>, sigma: real, z: seq<real>)
    requires |h| == |mask| == |z|
    ensures forall i :: 0 <= i < |h| && !mask[i] ==> Add(h, Perturbation(mask, sigma, z))[i] == h[i]
    ensures sigma == 0.0 ==> Add(h, Perturbation(mask, sigma, z)) == h
  {
  }

  // ---------------------------------------------------------------------
  // The network and the learner
  // ---------------------------------------------------------------------

  /** The part of the network the rule reads and writes. */
  class Rnn {
    const nH: nat
    const nIn: nat
    /** Hidden state, perturbed in place by the learner. */
    var h: array<real>
    /** Previous activation. */
    var aPrev: seq<real>
    /** Current input. */
    var x: seq<real>
    /** `rnn.loss_`: the loss of the current step. */
    var loss: real
    var trialType: int

    ghost predicate Valid()
      reads this
    {
      h.Length == nH && |aPrev| == nH && |x| == nIn
    }

    constructor (nH: nat, nIn: nat)
      ensures Valid() && this.nH == nH && this.nIn == nIn && fresh(h)
      ensures h[..] == Zeros(nH) && aPrev == Zeros(nH) && x == Zeros(nIn)
      ensures loss == 0.0 && trialType == 0
    {
      this.nH, this.nIn := nH, nIn;
      h := new real[nH](_ => 0.0);
      aPrev, x := Zeros(nH), Zeros(nIn);
      loss, trialType := 0.0, 0;
      new;
      assert h[..] == Zeros(nH);
    }
  }

  class MiconiReinforce {
    const name: string
    const rnn: Rnn
    const nH: nat
    var sigma: real
    var p: real
    /** Read by no update: the decayed trace update is not the active one. */
    var decay: real
    var lossDecay: real
    var hAvgDecay: real
    var tauETrace: real
    var resetHAvg: bool
    const hAvg: array<real>
    const eTrace: array2<real>
    var lossAvg: seq<real>
    var lossPrev: real
    var loss: real
    /** The intermediate values the last update stored on the learner. */
    var aHat: seq<real>
    var postDev: seq<real>
    var eImmediate: seq<seq<real>>
    var pert: seq<real>

    /** Width of the presynaptic vector: previous activation, input and bias. */
    function Width(): nat
      reads rnn
    {
      rnn.nH + rnn.nIn + 1
    }

    /** The arrays keep the network's shape and are not the network's own hidden-state array. */
    ghost predicate Valid()
      reads this, rnn
    {
      && rnn.Valid() && nH == rnn.nH
      && hAvg.Length == nH && hAvg != rnn.h
      && eTrace.Length0 == nH && eTrace.Length1 == |rnn.aPrev| + |rnn.x| + 1
    }

    /** The trace as a sequence of rows. */
    function TraceMatrix(): (m: seq<seq<real>>)
      reads eTrace
      ensures IsMatrix(m, eTrace.Length0, eTrace.Length1)
      ensures forall i, j :: 0 <= i < eTrace.Length0 && 0 <= j < eTrace.Length1 ==> m[i][j] == eTrace[i, j]
    {
      seq(eTrace.Length0, i requires 0 <= i < eTrace.Length0 reads eTrace =>
        seq(eTrace.Length1, j requires 0 <= j < eTrace.Length1 reads eTrace => eTrace[i, j]))
    }

    /**
     * `__init__`: an option left out (None) takes its default; tau_e_trace
     * is fixed at 0.05 whatever is passed.
     */
    constructor (rnn: Rnn, sigma: real := 0.0, p: real := 1.0, nTrialTypes: int := 1,
                 decay: Option<real> := None, lossDecay: Option<real> := None,
                 hAvgDecay: Option<real> := None, tauETrace: Option<real> := None,
                 resetHAvg: Option<bool> := None)
      requires rnn.Valid()
      ensures Valid() && this.rnn == rnn && fresh(hAvg) && fresh(eTrace)
      ensures name == "Miconi_REINFORCE" && this.sigma == sigma && this.p == p
      ensures this.decay == (if decay.Some? then decay.value else 1.0)
      ensures this.lossDecay == (if lossDecay.Some? then lossDecay.value else 0.01)
      ensures this.hAvgDecay == (if hAvgDecay.Some? then hAvgDecay.value else 0.03)
      ensures this.resetHAvg == (if resetHAvg.Some? then resetHAvg.value else true)
      ensures this.tauETrace == 0.05
      ensures hAvg[..] == Zeros(rnn.nH) && TraceMatrix() == ZeroMatrix(rnn.nH, Width())
      ensures lossAvg == Zeros(if nTrialTypes < 0 then 0 else nTrialTypes)
      ensures lossPrev == 0.0 && loss == 0.0
    {
      name := "Miconi_REINFORCE";
      this.rnn := rnn;
      nH := rnn.nH;
      this.decay := if decay.Some? then decay.value else 1.0;
      this.lossDecay := if lossDecay.Some? then lossDecay.value else 0.01;
      this.hAvgDecay := if hAvgDecay.Some? then hAvgDecay.value else 0.03;
      this.resetHAvg := if resetHAvg.Some? then resetHAvg.value else true;
      hAvg := new real[rnn.nH](_ => 0.0);
      this.tauETrace := 0.05;
      eTrace := new real[rnn.nH, rnn.nH + rnn.nIn + 1]((_, _) => 0.0);
      lossAvg := Zeros(if nTrialTypes < 0 then 0 else nTrialTypes);
      lossPrev, loss := 0.0, 0.0;
      this.sigma, this.p := sigma, p;
      aHat, postDev, eImmediate, pert := [], [], [], [];
      new;
      assert hAvg[..] == Zeros(rnn.nH);
      MatrixExt(TraceMatrix(), ZeroMatrix(rnn.nH, Width()), rnn.nH, Width());
    }

    /**
     * `update_learning_vars`, with the mask and the standard-normal draw of
     * the perturbation given. When the trial type does not index loss_avg
     * the Python code raises at line 70, and when p or sigma is outside the
     * range of its draw it raises at line 74 or 75: the steps before have
     * happened (for a negative sigma, `pert` already holds the 0/1 mask) and
     * ok is false.
     */
    method UpdateLearningVars(mask: seq<bool>, z: seq<real>) returns (ok: bool)
      requires Valid() && |mask| == nH && |z| == nH
      modifies this`aHat, this`postDev, this`eImmediate, this`lossPrev, this`loss, this`lossAvg, this`pert
      modifies hAvg, eTrace, rnn.h
      ensures Valid()
      ensures aHat == AHat(rnn.aPrev, rnn.x)
      ensures hAvg[..] == Smooth(old(hAvg[..]), old(rnn.h[..]), hAvgDecay)
      ensures postDev == Sub(old(rnn.h[..]), hAvg[..])
      ensures eImmediate == Outer(postDev, aHat)
      ensures TraceMatrix() == AddCubes(old(TraceMatrix()), eImmediate, nH, Width())
      ensures lossPrev == old(loss) && loss == rnn.loss
      ensures ok <==> ValidIndex(rnn.trialType, |old(lossAvg)|) && DrawsDefined(p, sigma)
      ensures ValidIndex(rnn.trialType, |old(lossAvg)|) ==> var k := NormIndex(rnn.trialType, |old(lossAvg)|);
                lossAvg == old(lossAvg)[k := Blend(old(lossAvg)[k], old(loss), lossDecay)]
      ensures !ValidIndex(rnn.trialType, |old(lossAvg)|) ==> lossAvg == old(lossAvg)
      ensures ok ==> pert == Perturbation(mask, sigma, z) && rnn.h[..] == Add(old(rnn.h[..]), pert)
      ensures ValidIndex(rnn.trialType, |old(lossAvg)|) && MaskDefined(p) && !NoiseDefined(sigma) ==> pert == MaskVector(mask)
      ensures !(ValidIndex(rnn.trialType, |old(lossAvg)|) && MaskDefined(p)) ==> pert == old(pert)
      ensures !ok ==> rnn.h[..] == old(rnn.h[..])
    {
      TraceStep();
      ok := LossStep(mask, z);
    }

    /** Lines 53-66: the presynaptic vector, the hidden average, the deviation and the trace. */
    method TraceStep()
      requires Valid()
      modifies this`aHat, this`postDev, this`eImmediate, hAvg, eTrace
      ensures Valid()
      ensures aHat == AHat(rnn.aPrev, rnn.x)
      ensures hAvg[..] == Smooth(old(hAvg[..]), rnn.h[..], hAvgDecay)
      ensures postDev == Sub(rnn.h[..], hAvg[..])
      ensures eImmediate == Outer(postDev, aHat)
      ensures TraceMatrix() == AddCubes(old(TraceMatrix()), eImmediate, nH, Width())
    {
      var presyn := AHat(rnn.aPrev, rnn.x);
      SmoothHiddenAverage();
      var deviation := Sub(rnn.h[..], hAvg[..]);
      var immediate := Outer(deviation, presyn);
      AccumulateTrace(immediate);
      aHat, postDev, eImmediate := presyn, deviation, immediate;
    }

    /**
     * Lines 67-77: the loss bookkeeping and the perturbation of the hidden
     * state; ok is false where line 70, 74 or 75 raises.
     */
    method LossStep(mask: seq<bool>, z: seq<real>) returns (ok: bool)
      requires Valid() && |mask| == nH && |z| == nH
      modifies this`lossPrev, this`loss, this`lossAvg, this`pert, rnn.h
      ensures Valid()
      ensures lossPrev == old(loss) && loss == rnn.loss
      ensures ok <==> ValidIndex(rnn.trialType, |old(lossAvg)|) && DrawsDefined(p, sigma)
      ensures ValidIndex(rnn.trialType, |old(lossAvg)|) ==> var k := NormIndex(rnn.trialType, |old(lossAvg)|);
                lossAvg == old(lossAvg)[k := Blend(old(lossAvg)[k], old(loss), lossDecay)]
      ensures !ValidIndex(rnn.trialType, |old(lossAvg)|) ==> lossAvg == old(lossAvg)
      ensures ok ==> pert == Perturbation(mask, sigma, z) && rnn.h[..] == Add(old(rnn.h[..]), pert)
      ensures ValidIndex(rnn.trialType, |old(lossAvg)|) && MaskDefined(p) && !NoiseDefined(sigma) ==> pert == MaskVector(mask)
      ensures !(ValidIndex(rnn.trialType, |old(lossAvg)|) && MaskDefined(p)) ==> pert == old(pert)
      ensures !ok ==> rnn.h[..] == old(rnn.h[..])
    {
      lossPrev, loss := loss, rnn.loss;
      var tt := rnn.trialType;
      if !ValidIndex(tt, |lossAvg|) {
        return false;
      }
      var k := NormIndex(tt, |lossAvg|);
      lossAvg := lossAvg[k := Blend(lossAvg[k], lossPrev, lossDecay)];
      if !MaskDefined(p) {
        return false;
      }
      var bernoulli := MaskVector(mask);
      pert := bernoulli;
      if !NoiseDefined(sigma) {
        return false;
      }
      var perturbation := Perturbation(mask, sigma, z);
      pert := perturbation;
      PerturbHidden(perturbation);
      ok := true;
    }

    /** Line 57: the hidden average moves towards the hidden state at rate hAvgDecay. */
    method SmoothHiddenAverage()
      requires Valid()
      modifies hAvg
      ensures hAvg[..] == Smooth(old(hAvg[..]), rnn.h[..], hAvgDecay)
    {
      forall i | 0 <= i < hAvg.Length {
        hAvg[i] := Blend(hAvg[i], rnn.h[i], hAvgDecay);
      }
    }

    /** Line 66: every trace entry grows by the cube of the instantaneous term's entry. */
    method AccumulateTrace(immediate: seq<seq<real>>)
      requires Valid() && IsMatrix(immediate, nH, Width())
      modifies eTrace
      ensures TraceMatrix() == AddCubes(old(TraceMatrix()), immediate, nH, Width())
    {
      forall i, j | 0 <= i < eTrace.Length0 && 0 <= j < eTrace.Length1 {
        eTrace[i, j] := eTrace[i, j] + Cube(immediate[i][j]);
      }
      MatrixExt(TraceMatrix(), AddCubes(old(TraceMatrix()), immediate, nH, Width()), nH, Width());
    }

    /** Line 77: `rnn.h += pert`, in place on the network's array. */
    method PerturbHidden(perturbation: seq<real>)
      requires Valid() && |perturbation| == nH
      modifies rnn.h
      ensures rnn.h[..] == Add(old(rnn.h[..]), perturbation)
    {
      forall i | 0 <= i < rnn.h.Length {
        rnn.h[i] := rnn.h[i] + perturbation[i];
      }
    }

    /**
     * `get_rec_grads`: the loss advantage over the trial type's average times
     * the trace; None where Python raises IndexError. Changes nothing.
     */
    method GetRecGrads() returns (g: Option<seq<seq<real>>>)
      requires Valid()
      ensures g.Some? <==> ValidIndex(rnn.trialType, |lossAvg|)
      ensures g.Some? ==> IsMatrix(g.value, nH, |rnn.aPrev| + |rnn.x| + 1)
      ensures g.Some? ==> forall i, j :: 0 <= i < nH && 0 <= j < Width() ==>
        g.value[i][j] == (loss - lossAvg[NormIndex(rnn.trialType, |lossAvg|)]) * eTrace[i, j]
    {
      var tt := rnn.trialType;
      if !ValidIndex(tt, |lossAvg|) {
        return None;
      }
      var advantage := loss - lossAvg[NormIndex(tt, |lossAvg|)];
      g := Some(Scale(advantage, TraceMatrix(), nH, Width()));
    }

    /** `reset_learning`: the trace goes to zero, the hidden average too when resetHAvg; the losses stay. */
    method ResetLearning()
      requires Valid()
      modifies eTrace, hAvg
      ensures Valid()
      ensures TraceMatrix() == ZeroMatrix(nH, Width())
      ensures hAvg[..] == if resetHAvg then Zeros(nH) else old(hAvg[..])
    {
      forall i, j | 0 <= i < eTrace.Length0 && 0 <= j < eTrace.Length1 {
        eTrace[i, j] := eTrace[i, j] * 0.0;
      }
      if resetHAvg {
        forall i | 0 <= i < hAvg.Length {
          hAvg[i] := hAvg[i] * 0.0;
        }
      }
      MatrixExt(TraceMatrix(), ZeroMatrix(nH, Width()), nH, Width());
    }
  }

  /** A reset followed by a gradient request gives the all-zero matrix of the trace's shape. */
  method ResetThenGetRecGrads(learner: MiconiReinforce) returns (g: Option<seq<seq<real>>>)
    requires learner.Valid()
    modifies learner.eTrace, learner.hAvg
    ensures g.Some? <==> ValidIndex(learner.rnn.trialType, |learner.lossAvg|)
    ensures g.Some? ==> g.value == ZeroMatrix(learner.nH, learner.Width())
  {
    learner.ResetLearning();
    g := learner.GetRecGrads();
    if g.Some? {
      MatrixExt(g.value, ZeroMatrix(learner.nH, learner.Width()), learner.nH, learner.Width());
    }
  }

  /** With sigma = 0 an update leaves the hidden state as it found it. */
  method ZeroSigmaUpdate(learner: MiconiReinforce, mask: seq<bool>, z: seq<real>) returns (ok: bool)
    requires learner.Valid() && learner.sigma == 0.0 && |mask| == learner.nH && |z| == learner.nH
    modifies learner, learner.hAvg, learner.eTrace, learner.rnn.h
    ensures learner.Valid() && learner.rnn.h[..] == old(learner.rnn.h[..])
  {
    ok := learner.UpdateLearningVars(mask, z);
    PerturbationVanishes(old(learner.rnn.h[..]), mask, 0.0, z);
  }
}
