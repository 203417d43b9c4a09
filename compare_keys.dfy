/**
 * The `compare_` key filter shared by the two comparison entry scripts:
 *
 *   compare_args = {k.split('compare_')[1]: all_args[k]
 *                   for k in all_args.keys() if 'compare_' in k}
 *
 * The loaded argument dictionary is a sequence of key/value pairs in its
 * iteration order; the comprehension inserts one entry per selected key in
 * that order, so a later key overwrites an earlier one with the same new key.
 */
module CompareKeys {
  import opened PyBuiltins

  const Marker: string := "compare_"

  /** `k.split('compare_')[1]`, defined when `'compare_' in k`. */
  function NewKey(k: string): string
    requires Contains(k, Marker)
  {
    ContainsIffSplits(k, Marker);
    Split(k, Marker)[1]
  }

  /** The comprehension, entry by entry in iteration order. */
  function CompareArgs<V>(allArgs: seq<(string, V)>): map<string, V>
  {
    if allArgs == [] then map[]
    else
      var rest := CompareArgs(allArgs[..|allArgs| - 1]);
      var (k, v) := allArgs[|allArgs| - 1];
      if Contains(k, Marker) then rest[NewKey(k) := v] else rest
  }

  /** Entry i is selected by the filter and renamed to nk. */
  predicate RenamedTo<V>(allArgs: seq<(string, V)>, i: nat, nk: string)
    requires i < |allArgs|
  {
    Contains(allArgs[i].0, Marker) && NewKey(allArgs[i].0) == nk
  }

  /** Entry i is the last one renamed to nk. */
  predicate LastRenamedTo<V>(allArgs: seq<(string, V)>, i: nat, nk: string)
  {
    && i < |allArgs| && RenamedTo(allArgs, i, nk)
    && forall j :: i < j < |allArgs| ==> !RenamedTo(allArgs, j, nk)
  }

  /**
   * `k.split('compare_')[1]` is the text after the first `compare_`: it
   * starts right after the first occurrence, holds no `compare_`, and runs
   * to the next occurrence or to the end of k.
   */
  lemma {:induction false} NewKeyBetweenMatches(k: string)
    requires Contains(k, Marker)
    ensures exists p: nat :: (p + |Marker| <= |k| && Marker <= k[p..] && NoMatchBefore(k, Marker, p)
                              && AfterFirstMatch(k[p + |Marker|..], NewKey(k)))
  {
    ContainsIffSplits(k, Marker);
    SplitFirst(k, Marker);
    var p := |Split(k, Marker)[0]|;
    var rest := k[p + |Marker|..];
    SplitFirst(rest, Marker);
    assert Split(rest, Marker)[0] == NewKey(k);
    assert AfterFirstMatch(rest, NewKey(k));
  }

  /** key is the text of rest up to its first `compare_`, or all of rest when it has none. */
  predicate AfterFirstMatch(rest: string, key: string)
  {
    && |key| <= |rest| && key == rest[..|key|] && NoMatchBefore(rest, Marker, |key|)
    && (key == rest || Marker <= rest[|key|..])
  }

  /** A new key is present exactly when some selected input key is renamed to it. */
  lemma {:induction false} CompareArgsKeys<V>(allArgs: seq<(string, V)>, nk: string)
    ensures nk in CompareArgs(allArgs) <==> exists i :: 0 <= i < |allArgs| && RenamedTo(allArgs, i, nk)
    decreases |allArgs|
  {
    if allArgs != [] {
      var n := |allArgs| - 1;
      var front := allArgs[..n];
      CompareArgsKeys(front, nk);
      assert forall i :: 0 <= i < n ==> front[i] == allArgs[i];
      if exists i :: 0 <= i < |allArgs| && RenamedTo(allArgs, i, nk) {
        var i :| 0 <= i < |allArgs| && RenamedTo(allArgs, i, nk);
        if i < n {
          assert RenamedTo(front, i, nk);
        }
      }
      var k := allArgs[n].0;
      if Contains(k, Marker) && NewKey(k) == nk {
        assert RenamedTo(allArgs, n, nk);
      } else if nk in CompareArgs(front) {
        var i :| 0 <= i < n && RenamedTo(front, i, nk);
        assert RenamedTo(allArgs, i, nk);
      }
    }
  }

  /** The value of a new key is the value of the last input key renamed to it. */
  lemma {:induction false} CompareArgsLastWins<V>(allArgs: seq<(string, V)>, i: nat, nk: string)
    requires LastRenamedTo(allArgs, i, nk)
    ensures nk in CompareArgs(allArgs) && CompareArgs(allArgs)[nk] == allArgs[i].1
    decreases |allArgs|
  {
    var n := |allArgs| - 1;
    var front := allArgs[..n];
    if i < n {
      assert forall j :: 0 <= j < n ==> front[j] == allArgs[j];
      assert !RenamedTo(allArgs, n, nk);
      assert RenamedTo(front, i, nk);
      forall j | i < j < n
        ensures !RenamedTo(front, j, nk)
      {
        assert !RenamedTo(allArgs, j, nk);
      }
      CompareArgsLastWins(front, i, nk);
    }
  }

  /** Every value of the result is the value of an input key renamed to its key. */
  lemma {:induction false} CompareArgsValues<V>(allArgs: seq<(string, V)>, nk: string)
    requires nk in CompareArgs(allArgs)
    ensures exists i: nat :: LastRenamedTo(allArgs, i, nk) && CompareArgs(allArgs)[nk] == allArgs[i].1
  {
    CompareArgsKeys(allArgs, nk);
    var i :| 0 <= i < |allArgs| && RenamedTo(allArgs, i, nk);
    var last := LastOf(allArgs, i, nk);
    CompareArgsLastWins(allArgs, last, nk);
  }

  /** The index of the last entry at or after i that is renamed to nk. */
  ghost function LastOf<V>(allArgs: seq<(string, V)>, i: nat, nk: string): (l: nat)
    requires i < |allArgs| && RenamedTo(allArgs, i, nk)
    ensures i <= l && LastRenamedTo(allArgs, l, nk)
    decreases |allArgs| - i
  {
    if forall j :: i < j < |allArgs| ==> !RenamedTo(allArgs, j, nk) then i
    else
      var j :| i < j < |allArgs| && RenamedTo(allArgs, j, nk);
      LastOf(allArgs, j, nk)
  }

  /** An entry whose key holds no `compare_` leaves the result as it is, wherever it stands. */
  lemma {:induction false} UnmarkedIgnored<V>(front: seq<(string, V)>, k: string, v: V, back: seq<(string, V)>)
    requires !Contains(k, Marker)
    ensures CompareArgs(front + [(k, v)] + back) == CompareArgs(front + back)
    decreases |back|
  {
    if back == [] {
      assert (front + [(k, v)] + back)[..|front|] == front;
      assert front + back == front;
    } else {
      var n := |back| - 1;
      UnmarkedIgnored(front, k, v, back[..n]);
      assert (front + [(k, v)] + back)[..|front| + 1 + n] == front + [(k, v)] + back[..n];
      assert (front + back)[..|front| + n] == front + back[..n];
    }
  }

  /** `compare_lr` becomes `lr`. */
  lemma {:induction false} NewKeyOfPrefixed()
    ensures Contains("compare_lr", Marker) && NewKey("compare_lr") == "lr"
  {
    assert "compare_lr" == Marker + "lr";
    SplitAfterPrefix(Marker, "lr");
    assert !Contains("lr", Marker);
    SplitWithout("lr", Marker);
  }

  /** `x_compare_y` becomes `y`: the marker need not start the key. */
  lemma {:induction false} NewKeyOfInfixed()
    ensures Contains("x_compare_y", Marker) && NewKey("x_compare_y") == "y"
  {
    assert "x_compare_y"[2..] == Marker + "y";
    SplitAfterPrefix(Marker, "y");
    assert !Contains("y", Marker);
    SplitWithout("y", Marker);
    var k := "x_compare_y";
    var t := k[1..];
    assert !(Marker <= k) && !(Marker <= t);
    assert t[1..] == k[2..];
    var r2 := Split(k[2..], Marker);
    assert r2 == ["", "y"];
    assert Split(t, Marker) == [[t[0]] + r2[0]] + r2[1..];
    assert [t[0]] + r2[0] == "_";
    var r1 := Split(t, Marker);
    assert r1 == ["_", "y"];
    assert Split(k, Marker) == [[k[0]] + r1[0]] + r1[1..];
    assert [k[0]] + r1[0] == "x_";
    assert Split(k, Marker) == ["x_", "y"];
  }
}
