/**
 * Small utilities: the Cartesian product of configurations, attribute
 * lookup along a dotted path, splitting a weight matrix into blocks, and
 * collecting the parameter values that occur in a list of simulation keys.
 */
module ProgrammingTools {
  import opened Wrappers
  import opened PyBuiltins
  import opened Matrices

  // ---------------------------------------------------------------------
  // config_generator
  // ---------------------------------------------------------------------

  /** `[[x] + t for x in xs for t in tails]`. */
  function Prepend<V>(xs: seq<V>, tails: seq<seq<V>>): seq<seq<V>>
  {
    if xs == [] then [] else seq(|tails|, j requires 0 <= j < |tails| => [xs[0]] + tails[j]) + Prepend(xs[1..], tails)
  }

  /** `list(itertools.product(*vals))`, each tuple as a sequence: Π |vals_k| of them. */
  function Product<V>(vals: seq<seq<V>>): (tuples: seq<seq<V>>)
    ensures |tuples| == CountOf(vals)
  {
    if vals == [] then [[]]
    else
      var rest := Product(vals[1..]);
      PrependLength(vals[0], rest);
      Prepend(vals[0], rest)
  }

  /** The product of the lengths of the value lists. */
  function CountOf<V>(vals: seq<seq<V>>): nat
  {
    if vals == [] then 1 else |vals[0]| * CountOf(vals[1..])
  }

  /**
   * `dict(zip(keys, vs))`: zip stops at the shorter sequence, and a later
   * key overwrites an earlier one.
   */
  function ZipMap<K, V>(keys: seq<K>, vs: seq<V>): map<K, V>
  {
    if keys == [] || vs == [] then map[]
    else
      var rest := ZipMap(keys[1..], vs[1..]);
      if keys[0] in rest then rest else rest[keys[0] := vs[0]]
  }

  /** The keys of keyword arguments, in order. */
  function KeysOf<V>(kwargs: seq<(string, seq<V>)>): (keys: seq<string>)
    ensures |keys| == |kwargs| && forall i :: 0 <= i < |kwargs| ==> keys[i] == kwargs[i].0
  {
    seq(|kwargs|, i requires 0 <= i < |kwargs| => kwargs[i].0)
  }

  /** The value lists of keyword arguments, in order. */
  function ValuesOf<V>(kwargs: seq<(string, seq<V>)>): (vals: seq<seq<V>>)
    ensures |vals| == |kwargs| && forall i :: 0 <= i < |kwargs| ==> vals[i] == kwargs[i].1
  {
    seq(|kwargs|, i requires 0 <= i < |kwargs| => kwargs[i].1)
  }

  /**
   * `list(config_generator(**kwargs))`; keyword arguments are given in
   * their order, and Python keeps their names distinct.
   */
  function ConfigGenerator<V>(kwargs: seq<(string, seq<V>)>): (configs: seq<map<string, V>>)
    requires DistinctKeys(kwargs)
    ensures kwargs == [] ==> configs == [map[]]
  {
    var keys := KeysOf(kwargs);
    var instances := Product(ValuesOf(kwargs));
    seq(|instances|, i requires 0 <= i < |instances| => ZipMap(keys, instances[i]))
  }

  /** Prepend pairs every x with every tail. */
  lemma {:induction false} PrependLength<V>(xs: seq<V>, tails: seq<seq<V>>)
    ensures |Prepend(xs, tails)| == |xs| * |tails|
    decreases |xs|
  {
    if xs != [] {
      PrependLength(xs[1..], tails);
      assert |xs| * |tails| == |tails| + (|xs| - 1) * |tails|;
    }
  }

  /** Entry i * |tails| + j of Prepend is xs[i] followed by tails[j]. */
  lemma {:induction false} PrependAt<V>(xs: seq<V>, tails: seq<seq<V>>, i: nat, j: nat)
    requires i < |xs| && j < |tails|
    ensures i * |tails| + j < |Prepend(xs, tails)|
    ensures Prepend(xs, tails)[i * |tails| + j] == [xs[i]] + tails[j]
    decreases |xs|
  {
    var m := |tails|;
    var first := seq(m, j requires 0 <= j < m => [xs[0]] + tails[j]);
    var rest := Prepend(xs[1..], tails);
    assert Prepend(xs, tails) == first + rest;
    if i == 0 {
      assert i * m + j == j;
    } else {
      PrependAt(xs[1..], tails, i - 1, j);
      assert i * m + j == m + ((i - 1) * m + j);
      assert xs[1..][i - 1] == xs[i];
    }
  }

  /** t is in Prepend(xs, tails) exactly when it is some x of xs followed by some tail. */
  lemma {:induction false} PrependMember<V>(xs: seq<V>, tails: seq<seq<V>>, t: seq<V>)
    ensures t in Prepend(xs, tails) <==> |t| >= 1 && t[0] in xs && t[1..] in tails
    decreases |xs|
  {
    if xs != [] {
      PrependMember(xs[1..], tails, t);
      var first := seq(|tails|, j requires 0 <= j < |tails| => [xs[0]] + tails[j]);
      assert Prepend(xs, tails) == first + Prepend(xs[1..], tails);
      if t in first {
        var j :| 0 <= j < |tails| && first[j] == t;
        assert t[1..] == tails[j];
      }
      if |t| >= 1 && t[0] == xs[0] && t[1..] in tails {
        var j :| 0 <= j < |tails| && tails[j] == t[1..];
        assert first[j] == t;
      }
    }
  }

  /** An empty value list anywhere leaves nothing to enumerate. */
  lemma {:induction false} ProductOfEmpty<V>(vals: seq<seq<V>>, k: nat)
    requires k < |vals| && vals[k] == []
    ensures Product(vals) == []
    decreases |vals|
  {
    if k > 0 {
      ProductOfEmpty(vals[1..], k - 1);
    }
  }

  /** The tuples are exactly the choices of one value per list. */
  lemma {:induction false} ProductMember<V>(vals: seq<seq<V>>, t: seq<V>)
    ensures t in Product(vals) <==> |t| == |vals| && forall i :: 0 <= i < |vals| ==> t[i] in vals[i]
    decreases |vals|
  {
    if vals == [] {
      if t in Product(vals) {
        assert t == [];
      }
    } else {
      PrependMember(vals[0], Product(vals[1..]), t);
      if |t| >= 1 {
        ProductMember(vals[1..], t[1..]);
        if |t| == |vals| && forall i :: 0 <= i < |vals| ==> t[i] in vals[i] {
          assert forall i :: 0 <= i < |vals| - 1 ==> t[1..][i] in vals[1..][i] by {
            forall i | 0 <= i < |vals| - 1
              ensures t[1..][i] in vals[1..][i]
            {
              assert t[1..][i] == t[i + 1];
            }
          }
        }
        if t[0] in vals[0] && t[1..] in Product(vals[1..]) {
          forall i | 0 <= i < |vals|
            ensures t[i] in vals[i]
          {
            if i > 0 {
              assert t[i] == t[1..][i - 1];
            }
          }
        }
      }
    }
  }

  /**
   * The order of `itertools.product`: the last list varies fastest, so the
   * tuple that starts with vals[0][i] and continues with tuple j of the
   * remaining lists comes at i * (their count) + j.
   */
  lemma {:induction false} ProductOrder<V>(vals: seq<seq<V>>, i: nat, j: nat)
    requires vals != [] && i < |vals[0]| && j < CountOf(vals[1..])
    ensures i * CountOf(vals[1..]) + j < |Product(vals)|
    ensures Product(vals)[i * CountOf(vals[1..]) + j] == [vals[0][i]] + Product(vals[1..])[j]
  {
    PrependAt(vals[0], Product(vals[1..]), i, j);
  }

  /** Zipping distinct keys with values maps each key to its own value. */
  lemma {:induction false} ZipMapLookup<K, V>(keys: seq<K>, vs: seq<V>)
    requires |keys| == |vs|
    requires forall i, j :: 0 <= i < j < |keys| ==> keys[i] != keys[j]
    ensures ZipMap(keys, vs).Keys == set i | 0 <= i < |keys| :: keys[i]
    ensures forall i :: 0 <= i < |keys| ==> ZipMap(keys, vs)[keys[i]] == vs[i]
    decreases |keys|
  {
    if keys != [] {
      var tail := keys[1..];
      ZipMapLookup(tail, vs[1..]);
      assert (set i | 0 <= i < |keys| :: keys[i]) == {keys[0]} + set i | 0 <= i < |tail| :: tail[i];
      assert keys[0] !in ZipMap(tail, vs[1..]);
      forall i | 1 <= i < |keys|
        ensures ZipMap(keys, vs)[keys[i]] == vs[i]
      {
        assert tail[i - 1] == keys[i] && vs[1..][i - 1] == vs[i];
      }
    }
  }

  /**
   * Each configuration has exactly the given keys, and each key's value is
   * drawn from that key's list.
   */
  lemma {:induction false} ConfigsSound<V>(kwargs: seq<(string, seq<V>)>, c: nat)
    requires DistinctKeys(kwargs) && c < |ConfigGenerator(kwargs)|
    ensures ConfigGenerator(kwargs)[c].Keys == set i | 0 <= i < |kwargs| :: kwargs[i].0
    ensures forall i :: 0 <= i < |kwargs| ==> ConfigGenerator(kwargs)[c][kwargs[i].0] in kwargs[i].1
  {
    var vals := ValuesOf(kwargs);
    var t := Product(vals)[c];
    ProductMember(vals, t);
    ZipMapLookup(KeysOf(kwargs), t);
    assert (set i | 0 <= i < |kwargs| :: KeysOf(kwargs)[i]) == set i | 0 <= i < |kwargs| :: kwargs[i].0;
  }

  /** Every choice of one value per key occurs among the configurations, and there are Π |vals_k| of them. */
  lemma {:induction false} ConfigsComplete<V>(kwargs: seq<(string, seq<V>)>, choice: seq<V>)
    requires DistinctKeys(kwargs)
    requires |choice| == |kwargs| && forall i :: 0 <= i < |kwargs| ==> choice[i] in kwargs[i].1
    ensures |ConfigGenerator(kwargs)| == CountOf(ValuesOf(kwargs))
    ensures ZipMap(KeysOf(kwargs), choice) in ConfigGenerator(kwargs)
  {
    var vals := ValuesOf(kwargs);
    ProductMember(vals, choice);
    var c :| 0 <= c < |Product(vals)| && Product(vals)[c] == choice;
    assert ConfigGenerator(kwargs)[c] == ZipMap(KeysOf(kwargs), choice);
  }

  /** An empty value list for any key gives no configuration at all. */
  lemma {:induction false} ConfigsOfEmpty<V>(kwargs: seq<(string, seq<V>)>, k: nat)
    requires DistinctKeys(kwargs) && k < |kwargs| && kwargs[k].1 == []
    ensures ConfigGenerator(kwargs) == []
  {
    ProductOfEmpty(ValuesOf(kwargs), k);
  }

  // ---------------------------------------------------------------------
  // rgetattr
  // ---------------------------------------------------------------------

  /** An object with named attributes, or a value without attributes. */
  datatype Node<L> = Leaf(value: L) | Object(fields: map<string, Node<L>>)

  /** `getattr(o, name)`; a missing attribute raises AttributeError, here None. */
  function GetAttr<L>(o: Node<L>, name: string): (r: Option<Node<L>>)
    ensures r.Some? <==> o.Object? && name in o.fields
    ensures r.Some? ==> r.value == o.fields[name]
  {
    if o.Object? && name in o.fields then Some(o.fields[name]) else None
  }

  /** `reduce(getattr, [o] + path)`: the attributes of path looked up left to right. */
  function Follow<L>(o: Node<L>, path: seq<string>): Option<Node<L>>
    decreases |path|
  {
    if path == [] then Some(o)
    else match GetAttr(o, path[0])
      case None => None
      case Some(child) => Follow(child, path[1..])
  }

  /** `rgetattr(o, attr)`. */
  function RGetAttr<L>(o: Node<L>, attr: string): Option<Node<L>>
  {
    Follow(o, Split(attr, "."))
  }

  /** Following p + q is following p, then q from where p ends. */
  lemma {:induction false} FollowAppend<L>(o: Node<L>, p: seq<string>, q: seq<string>)
    ensures Follow(o, p + q) == match Follow(o, p) case None => None case Some(m) => Follow(m, q)
    decreases |p|
  {
    if p == [] {
      assert p + q == q;
    } else {
      assert (p + q)[0] == p[0] && (p + q)[1..] == p[1..] + q;
      match GetAttr(o, p[0])
      case None =>
      case Some(child) => FollowAppend(child, p[1..], q);
    }
  }

  /** `rgetattr(o, a + '.' + b)` is `rgetattr(rgetattr(o, a), b)`. */
  lemma {:induction false} RGetAttrCompose<L>(o: Node<L>, a: string, b: string)
    ensures RGetAttr(o, a + "." + b) == match RGetAttr(o, a) case None => None case Some(m) => RGetAttr(m, b)
  {
    SplitCharConcat(a, '.', b);
    assert a + "." + b == a + ['.'] + b;
    FollowAppend(o, Split(a, "."), Split(b, "."));
  }

  /** Without a dot, `rgetattr` is `getattr`. */
  lemma {:induction false} RGetAttrSingle<L>(o: Node<L>, attr: string)
    requires !Contains(attr, ".")
    ensures RGetAttr(o, attr) == GetAttr(o, attr)
  {
    SplitWithout(attr, ".");
    assert [attr][0] == attr && [attr][1..] == [];
    match GetAttr(o, attr)
    case None =>
    case Some(child) =>
      assert Follow(child, []) == Some(child);
  }

  /** A segment that names no attribute on the way makes the lookup fail. */
  lemma {:induction false} FollowMissing<L>(o: Node<L>, path: seq<string>, k: nat)
    requires k < |path|
    requires match Follow(o, path[..k]) case None => true case Some(m) => GetAttr(m, path[k]).None?
    ensures Follow(o, path) == None
  {
    assert path == path[..k] + path[k..];
    FollowAppend(o, path[..k], path[k..]);
    match Follow(o, path[..k])
    case None =>
    case Some(m) =>
      assert path[k..][0] == path[k];
  }

  /** The nested objects of the `rgetattr` unit test: `bar.x.y == 2`. */
  lemma {:induction false} RGetAttrExample()
    ensures RGetAttr(Object(map["x" := Object(map["y" := Leaf(2)])]), "x.y") == Some(Leaf(2))
  {
    var foo: Node<int> := Object(map["y" := Leaf(2)]);
    var bar := Object(map["x" := foo]);
    assert !Contains("", ".");
    assert !("." <= "x") && "x"[1..] == "";
    assert !("." <= "y") && "y"[1..] == "";
    RGetAttrCompose(bar, "x", "y");
    RGetAttrSingle(bar, "x");
    RGetAttrSingle(foo, "y");
  }

  // ---------------------------------------------------------------------
  // split_weight_matrix
  // ---------------------------------------------------------------------

  /** `[0] + np.cumsum(sizes).tolist()`. */
  function PrefixSums(sizes: seq<int>): (idx: seq<int>)
    ensures |idx| == |sizes| + 1 && idx[0] == 0
    ensures forall i {:trigger sizes[i]} :: 0 <= i < |sizes| ==> idx[i + 1] == idx[i] + sizes[i]
  {
    if sizes == [] then [0]
    else
      var prev := PrefixSums(sizes[..|sizes| - 1]);
      prev + [prev[|prev| - 1] + sizes[|sizes| - 1]]
  }

  /** A Python slice bound on a sequence of length len: counted from the end when negative, then clamped. */
  function SliceBound(len: nat, i: int): (b: nat)
    ensures b <= len
    ensures 0 <= i <= len ==> b == i
  {
    if i < 0 then (if i + len < 0 then 0 else i + len) else if i > len then len else i
  }

  /** `s[a:b]` with Python's slice rules. */
  function PySlice<T>(s: seq<T>, a: int, b: int): seq<T>
  {
    var lo := SliceBound(|s|, a);
    var hi := SliceBound(|s|, b);
    if lo <= hi then s[lo..hi] else []
  }

  /** `A[:, a:b]`. */
  function ColumnSlice(m: seq<seq<real>>, a: int, b: int): seq<seq<real>>
  {
    seq(|m|, r requires 0 <= r < |m| => PySlice(m[r], a, b))
  }

  /**
   * `split_weight_matrix(A, sizes, axis)`: one piece per size, piece i
   * spanning the prefix sums idx[i] to idx[i + 1] along the axis. Any axis
   * other than 0 or 1 leaves `ret` unbound, here None.
   */
  function SplitWeightMatrix(a: seq<seq<real>>, sizes: seq<int>, axis: int := 1): (r: Option<seq<seq<seq<real>>>>)
    ensures r.Some? <==> axis == 0 || axis == 1
    ensures r.Some? ==> |r.value| == |sizes|
  {
    var idx := PrefixSums(sizes);
    if axis == 1 then Some(seq(|sizes|, i requires 0 <= i < |sizes| => ColumnSlice(a, idx[i], idx[i + 1])))
    else if axis == 0 then Some(seq(|sizes|, i requires 0 <= i < |sizes| => PySlice(a, idx[i], idx[i + 1])))
    else None
  }

  /** Non-negative sizes whose total fits in len. */
  predicate FitSizes(sizes: seq<int>, len: nat)
  {
    (forall i :: 0 <= i < |sizes| ==> sizes[i] >= 0) && PrefixSums(sizes)[|sizes|] <= len
  }

  /** The prefix sums of non-negative sizes climb from 0 to their total. */
  lemma {:induction false} PrefixSumsMonotone(sizes: seq<int>, len: nat)
    requires FitSizes(sizes, len)
    ensures forall i, j :: 0 <= i <= j <= |sizes| ==> 0 <= PrefixSums(sizes)[i] <= PrefixSums(sizes)[j] <= len
    decreases |sizes|
  {
    if sizes != [] {
      var n := |sizes| - 1;
      var front := sizes[..n];
      var idx := PrefixSums(sizes);
      assert PrefixSums(front) == idx[..n + 1];
      assert forall i :: 0 <= i < n ==> front[i] == sizes[i];
      PrefixSumsMonotone(front, len);
    }
  }

  /** Piece i lies between 0 and len, sizes[i] long. */
  lemma {:induction false} PieceBounds(sizes: seq<int>, len: nat, i: nat)
    requires FitSizes(sizes, len) && i < |sizes|
    ensures 0 <= PrefixSums(sizes)[i] && PrefixSums(sizes)[i] + sizes[i] <= len
    ensures PrefixSums(sizes)[i + 1] == PrefixSums(sizes)[i] + sizes[i]
  {
    PrefixSumsMonotone(sizes, len);
    assert PrefixSums(sizes)[i + 1] <= PrefixSums(sizes)[|sizes|];
  }

  /** Within bounds a Python slice is the plain subsequence. */
  lemma {:induction false} PySliceWithin<T>(s: seq<T>, lo: int, hi: int)
    requires 0 <= lo <= hi <= |s|
    ensures PySlice(s, lo, hi) == s[lo..hi]
  {
  }

  /** Piece i along the columns has the rows of A and sizes[i] columns, taken from idx[i] on. */
  lemma {:induction false} ColumnPieces(a: seq<seq<real>>, rows: nat, cols: nat, sizes: seq<int>, i: nat)
    requires IsMatrix(a, rows, cols) && FitSizes(sizes, cols) && i < |sizes|
    ensures 0 <= PrefixSums(sizes)[i] && PrefixSums(sizes)[i] + sizes[i] <= cols
    ensures var piece := SplitWeightMatrix(a, sizes, 1).value[i];
      IsMatrix(piece, rows, sizes[i]) &&
      forall r, c :: 0 <= r < rows && 0 <= c < sizes[i] ==> piece[r][c] == a[r][PrefixSums(sizes)[i] + c]
  {
    var idx := PrefixSums(sizes);
    PieceBounds(sizes, cols, i);
    var lo, hi := idx[i], idx[i + 1];
    assert SplitWeightMatrix(a, sizes, 1).value[i] == ColumnSlice(a, lo, hi);
    ColumnSliceWithin(a, rows, cols, lo, hi);
  }

  /** Within bounds, `A[:, lo:hi]` has the rows of A and the columns lo to hi. */
  lemma {:induction false} ColumnSliceWithin(a: seq<seq<real>>, rows: nat, cols: nat, lo: int, hi: int)
    requires IsMatrix(a, rows, cols) && 0 <= lo <= hi <= cols
    ensures IsMatrix(ColumnSlice(a, lo, hi), rows, hi - lo)
    ensures forall r, c :: 0 <= r < rows && 0 <= c < hi - lo ==> ColumnSlice(a, lo, hi)[r][c] == a[r][lo + c]
  {
    forall r | 0 <= r < rows
      ensures ColumnSlice(a, lo, hi)[r] == a[r][lo..hi]
    {
      PySliceWithin(a[r], lo, hi);
    }
  }

  /** Piece i along the rows has sizes[i] rows of A, from row idx[i] on. */
  lemma {:induction false} RowPieces(a: seq<seq<real>>, rows: nat, cols: nat, sizes: seq<int>, i: nat)
    requires IsMatrix(a, rows, cols) && FitSizes(sizes, rows) && i < |sizes|
    ensures 0 <= PrefixSums(sizes)[i] && PrefixSums(sizes)[i] + sizes[i] <= rows
    ensures var piece := SplitWeightMatrix(a, sizes, 0).value[i];
      IsMatrix(piece, sizes[i], cols) &&
      forall r :: 0 <= r < sizes[i] ==> piece[r] == a[PrefixSums(sizes)[i] + r]
  {
    var idx := PrefixSums(sizes);
    PieceBounds(sizes, rows, i);
    var lo, hi := idx[i], idx[i + 1];
    assert SplitWeightMatrix(a, sizes, 0).value[i] == PySlice(a, lo, hi);
    PySliceWithin(a, lo, hi);
  }

  /** The pieces of a sequence, one after another. */
  function Concat<T>(pieces: seq<seq<T>>): seq<T>
  {
    if pieces == [] then [] else Concat(pieces[..|pieces| - 1]) + pieces[|pieces| - 1]
  }

  /** The first k slices of s at the prefix sums. */
  function Slices<T>(s: seq<T>, sizes: seq<int>, k: nat): (pieces: seq<seq<T>>)
    requires k <= |sizes|
    ensures |pieces| == k
  {
    var idx := PrefixSums(sizes);
    seq(k, i requires 0 <= i < k => PySlice(s, idx[i], idx[i + 1]))
  }

  /** Concatenating the first k slices at the prefix sums gives the prefix up to idx[k]. */
  lemma {:induction false} ConcatSlices<T>(s: seq<T>, sizes: seq<int>, k: nat)
    requires FitSizes(sizes, |s|) && k <= |sizes|
    ensures Concat(Slices(s, sizes, k)) == PySlice(s, 0, PrefixSums(sizes)[k])
    decreases k
  {
    if k == 0 {
      PySliceWithin(s, 0, 0);
    } else {
      var idx := PrefixSums(sizes);
      ConcatSlices(s, sizes, k - 1);
      var pieces := Slices(s, sizes, k);
      assert pieces[..k - 1] == Slices(s, sizes, k - 1);
      assert pieces[k - 1] == PySlice(s, idx[k - 1], idx[k]);
      PieceBounds(sizes, |s|, k - 1);
      SliceAppend(s, idx[k - 1], idx[k]);
    }
  }

  /** `s[:hi] == s[:mid] + s[mid:hi]` within bounds. */
  lemma {:induction false} SliceAppend<T>(s: seq<T>, mid: int, hi: int)
    requires 0 <= mid <= hi <= |s|
    ensures PySlice(s, 0, hi) == PySlice(s, 0, mid) + PySlice(s, mid, hi)
  {
    PySliceWithin(s, 0, hi);
    PySliceWithin(s, 0, mid);
    PySliceWithin(s, mid, hi);
    assert s[0..hi] == s[0..mid] + s[mid..hi];
  }

  /** Sizes that add up to the number of rows: the row pieces stacked again give A back. */
  lemma {:induction false} SplitRowsRoundTrip(a: seq<seq<real>>, rows: nat, cols: nat, sizes: seq<int>)
    requires IsMatrix(a, rows, cols) && FitSizes(sizes, rows) && PrefixSums(sizes)[|sizes|] == rows
    ensures Concat(SplitWeightMatrix(a, sizes, 0).value) == a
  {
    ConcatSlices(a, sizes, |sizes|);
    assert SplitWeightMatrix(a, sizes, 0).value == Slices(a, sizes, |sizes|);
    PySliceWithin(a, 0, rows);
    assert a[0..rows] == a;
  }

  /** Row r of piece i along the columns is the slice of row r of A. */
  lemma {:induction false} ColumnPieceRow(a: seq<seq<real>>, sizes: seq<int>, i: nat, r: nat)
    requires i < |sizes| && r < |a|
    ensures SplitWeightMatrix(a, sizes, 1).value[i][r] == PySlice(a[r], PrefixSums(sizes)[i], PrefixSums(sizes)[i + 1])
  {
  }

  /** Sizes that add up to the number of columns: each row of the pieces side by side gives that row of A back. */
  lemma {:induction false} SplitColumnsRoundTrip(a: seq<seq<real>>, rows: nat, cols: nat, sizes: seq<int>, r: nat)
    requires IsMatrix(a, rows, cols) && FitSizes(sizes, cols) && PrefixSums(sizes)[|sizes|] == cols && r < rows
    ensures var pieces := SplitWeightMatrix(a, sizes, 1).value;
      Concat(seq(|sizes|, i requires 0 <= i < |sizes| => pieces[i][r])) == a[r]
  {
    var pieces := SplitWeightMatrix(a, sizes, 1).value;
    var idx := PrefixSums(sizes);
    var row := seq(|sizes|, i requires 0 <= i < |sizes| => pieces[i][r]);
    var slices := Slices(a[r], sizes, |sizes|);
    forall i | 0 <= i < |sizes|
      ensures row[i] == slices[i]
    {
      ColumnPieceRow(a, sizes, i, r);
    }
    assert row == slices;
    ConcatSlices(a[r], sizes, |sizes|);
    PySliceWithin(a[r], 0, cols);
    assert a[r][0..cols] == a[r];
  }

  /** The sizes of the unit tests: [3, 3, 4] starts its pieces at 0, 3 and 6 and fills 10. */
  lemma {:induction false} ExampleSizes()
    ensures PrefixSums([3, 3, 4]) == [0, 3, 6, 10] && FitSizes([3, 3, 4], 10)
  {
    var sizes := [3, 3, 4];
    assert sizes[..2] == [3, 3] && sizes[..2][..1] == [3] && sizes[..2][..1][..0] == [];
    assert PrefixSums([]) == [0];
    assert PrefixSums([3]) == [0, 3];
    assert PrefixSums([3, 3]) == [0, 3, 6];
  }

  /** The unit test: sizes [3, 3, 4] cut a 2 x 10 matrix into 2 x 3, 2 x 3 and 2 x 4 blocks. */
  lemma {:induction false} SplitColumnsExample(a: seq<seq<real>>)
    requires IsMatrix(a, 2, 10)
    ensures var pieces := SplitWeightMatrix(a, [3, 3, 4]).value;
      |pieces| == 3 && IsMatrix(pieces[0], 2, 3) && IsMatrix(pieces[1], 2, 3) && IsMatrix(pieces[2], 2, 4)
  {
    var sizes := [3, 3, 4];
    ExampleSizes();
    ColumnPieces(a, 2, 10, sizes, 0);
    ColumnPieces(a, 2, 10, sizes, 1);
    ColumnPieces(a, 2, 10, sizes, 2);
  }

  /** The unit test: sizes [3, 3, 4] cut a 10 x 2 matrix into 3 x 2, 3 x 2 and 4 x 2 blocks. */
  lemma {:induction false} SplitRowsExample(a: seq<seq<real>>)
    requires IsMatrix(a, 10, 2)
    ensures var pieces := SplitWeightMatrix(a, [3, 3, 4], 0).value;
      |pieces| == 3 && IsMatrix(pieces[0], 3, 2) && IsMatrix(pieces[1], 3, 2) && IsMatrix(pieces[2], 4, 2)
  {
    var sizes := [3, 3, 4];
    ExampleSizes();
    RowPieces(a, 10, 2, sizes, 0);
    RowPieces(a, 10, 2, sizes, 1);
    RowPieces(a, 10, 2, sizes, 2);
  }

  // ---------------------------------------------------------------------
  // get_param_values_from_list_of_config_strings
  // ---------------------------------------------------------------------

  /** Why the parser raises. */
  datatype ParseError =
    | MissingValue(key: string)  // `kvp[1]` on a piece without '=': IndexError
    | BadNumber(text: string)    // neither `int` nor `float` reads the value: ValueError
    | NoKeys                     // an empty iterable leaves `key_order` unbound

  /** One `key=value` piece split at '=': `kvp[0]`, and `kvp[1]` when there is one. */
  datatype Piece = Piece(name: string, value: Option<string>)

  /**
   * `s.split('=')`, keeping the two items the parser reads: the name is the
   * text before the first '=' (all of s when there is none), and a value
   * exists exactly when s holds an '=', being the text after it up to the
   * next one.
   */
  function ToPiece(s: string): (p: Piece)
    ensures |p.name| <= |s| && p.name == s[..|p.name|] && NoMatchBefore(s, "=", |p.name|)
    ensures p.value.Some? <==> Contains(s, "=")
    ensures p.value.None? ==> p.name == s
    ensures p.value.Some? ==> |p.name| < |s| && s[|p.name|] == '=' && p.value.value == Split(s[|p.name| + 1..], "=")[0]
  {
    var kvp := Split(s, "=");
    SplitFirst(s, "=");
    ContainsIffSplits(s, "=");
    Piece(kvp[0], if |kvp| >= 2 then Some(kvp[1]) else None)
  }

  /** The text after the last `analyze_<root>` of a key string. */
  function ConfigString(k: string, root: string): string
  {
    var parts := Split(k, "analyze_" + root);
    parts[|parts| - 1]
  }

  /** The pieces of one key string: its text split at `_`, the first item dropped. */
  function ConfigPieces(k: string, root: string): (ps: seq<Piece>)
    ensures |ps| == |Split(ConfigString(k, root), "_")| - 1
  {
    var items := Split(ConfigString(k, root), "_");
    seq(|items| - 1, i requires 0 <= i < |items| - 1 => ToPiece(items[i + 1]))
  }

  /**
   * The parameter names of one key string, in order: `key_order` when it is
   * the first. Name i is read from `_`-item i + 1 of the configuration text:
   * it is that item up to its first '=', or the whole item when it has none.
   */
  function KeyNames(k: string, root: string): (names: seq<string>)
    ensures |names| + 1 == |Split(ConfigString(k, root), "_")|
    ensures forall i :: 0 <= i < |names| ==>
              var it := Split(ConfigString(k, root), "_")[i + 1];
              |names[i]| <= |it| && names[i] == it[..|names[i]|] && NoMatchBefore(it, "=", |names[i]|) &&
              (!Contains(it, "=") ==> names[i] == it) &&
              (Contains(it, "=") ==> |names[i]| < |it| && it[|names[i]|] == '=')
  {
    var items := Split(ConfigString(k, root), "_");
    var ps := ConfigPieces(k, root);
    assert forall i :: 0 <= i < |ps| ==> ps[i] == ToPiece(items[i + 1]);
    seq(|ps|, i requires 0 <= i < |ps| => ps[i].name)
  }

  /** The pieces of all key strings, string after string. */
  function AllPieces(keys: seq<string>, root: string): seq<Piece>
  {
    if keys == [] then [] else AllPieces(keys[..|keys| - 1], root) + ConfigPieces(keys[|keys| - 1], root)
  }

  /** The text of a value with `,` read as the decimal point. */
  function ValueText(p: Piece): string
    requires p.value.Some?
  {
    ReplaceChar(p.value.value, ',', '.')
  }

  /** The number a piece carries; parse stands for `int`, then `float`. */
  function NumberOf(p: Piece, parse: string -> Option<real>): Option<real>
  {
    if p.value.None? then None else parse(ValueText(p))
  }

  /**
   * One pass of the inner loop: a value is added to the key's set when the
   * key is already there; otherwise the `KeyError` handler registers the
   * key with an empty set and the value is lost.
   */
  function Register(pv: map<string, set<real>>, p: Piece, parse: string -> Option<real>)
    : Result<map<string, set<real>>, ParseError>
  {
    if p.value.None? then Err(MissingValue(p.name))
    else match parse(ValueText(p))
      case None => Err(BadNumber(ValueText(p)))
      case Some(v) => if p.name in pv then Ok(pv[p.name := pv[p.name] + {v}]) else Ok(pv[p.name := {}])
  }

  /** The dictionary of sets after the pieces ps, or the first error. */
  function Collect(ps: seq<Piece>, parse: string -> Option<real>): Result<map<string, set<real>>, ParseError>
  {
    if ps == [] then Ok(map[])
    else match Collect(ps[..|ps| - 1], parse)
      case Err(e) => Err(e)
      case Ok(pv) => Register(pv, ps[|ps| - 1], parse)
  }

  /** What the function returns, before its sets are sorted. */
  function ParamValues(keys: seq<string>, root: string, parse: string -> Option<real>)
    : Result<(map<string, set<real>>, seq<string>), ParseError>
  {
    match Collect(AllPieces(keys, root), parse)
    case Err(e) => Err(e)
    case Ok(pv) => if keys == [] then Err(NoKeys) else Ok((pv, KeyNames(keys[0], root)))
  }

  /** Once a piece fails, later pieces change nothing. */
  lemma {:induction false} CollectErrSticky(a: seq<Piece>, b: seq<Piece>, parse: string -> Option<real>)
    requires Collect(a, parse).Err?
    ensures Collect(a + b, parse) == Collect(a, parse)
    decreases |b|
  {
    if b == [] {
      assert a + b == a;
    } else {
      var front := b[..|b| - 1];
      CollectErrSticky(a, front, parse);
      assert (a + b)[..|a + b| - 1] == a + front;
    }
  }

  /** The pieces of the first m strings come first among the pieces of all of them. */
  lemma {:induction false} AllPiecesPrefix(keys: seq<string>, root: string, m: nat)
    requires m <= |keys|
    ensures AllPieces(keys[..m], root) <= AllPieces(keys, root)
    decreases |keys|
  {
    if m < |keys| {
      var front := keys[..|keys| - 1];
      AllPiecesPrefix(front, root, m);
      assert front[..m] == keys[..m];
    } else {
      assert keys[..m] == keys;
    }
  }

  /** Every piece has a value that parses. */
  ghost predicate AllNumbers(ps: seq<Piece>, parse: string -> Option<real>)
  {
    forall i :: 0 <= i < |ps| ==> NumberOf(ps[i], parse).Some?
  }

  /** Key occurs among the pieces. */
  ghost predicate Named(ps: seq<Piece>, key: string)
  {
    exists i :: 0 <= i < |ps| && ps[i].name == key
  }

  /** Some occurrence of key after another occurrence of key carries v. */
  ghost predicate RepeatedWith(ps: seq<Piece>, key: string, v: real, parse: string -> Option<real>)
  {
    exists i, j :: 0 <= i < j < |ps| && ps[i].name == key && ps[j].name == key && NumberOf(ps[j], parse) == Some(v)
  }

  /** The keys of pv are the names among the pieces. */
  ghost predicate KeysFrom(pv: map<string, set<real>>, ps: seq<Piece>)
  {
    forall key :: key in pv <==> Named(ps, key)
  }

  /** The set of each key holds the values of its repeated occurrences. */
  ghost predicate ValuesFrom(pv: map<string, set<real>>, ps: seq<Piece>, parse: string -> Option<real>)
  {
    forall key, v :: key in pv ==> (v in pv[key] <==> RepeatedWith(ps, key, v, parse))
  }

  /** A new piece adds its name to the names. */
  lemma {:induction false} KeysStep(pv: map<string, set<real>>, front: seq<Piece>, p: Piece, vs: set<real>)
    requires KeysFrom(pv, front)
    ensures KeysFrom(pv[p.name := vs], front + [p])
  {
    var ps := front + [p];
    forall key
      ensures key in pv[p.name := vs] <==> Named(ps, key)
    {
      if Named(ps, key) {
        var i :| 0 <= i < |ps| && ps[i].name == key;
        if i < |front| {
          assert front[i] == ps[i];
        }
      }
      if key in pv {
        var i :| 0 <= i < |front| && front[i].name == key;
        assert ps[i] == front[i];
      }
      assert ps[|front|] == p;
    }
  }

  /** Occurrences of key with a value, when a piece is added: those before, and the new one after a name seen before. */
  lemma {:induction false} RepeatedStep(front: seq<Piece>, p: Piece, parse: string -> Option<real>, key: string, w: real)
    ensures RepeatedWith(front + [p], key, w, parse) <==>
      RepeatedWith(front, key, w, parse) || (p.name == key && Named(front, key) && NumberOf(p, parse) == Some(w))
  {
    var ps := front + [p];
    var n := |front|;
    assert forall i :: 0 <= i < n ==> ps[i] == front[i];
    assert ps[n] == p;
    if RepeatedWith(ps, key, w, parse) {
      var i, j :| 0 <= i < j < |ps| && ps[i].name == key && ps[j].name == key && NumberOf(ps[j], parse) == Some(w);
      if j < n {
        assert RepeatedWith(front, key, w, parse);
      } else {
        assert Named(front, key);
      }
    }
    if RepeatedWith(front, key, w, parse) {
      var i, j :| 0 <= i < j < n && front[i].name == key && front[j].name == key && NumberOf(front[j], parse) == Some(w);
      assert ps[i] == front[i] && ps[j] == front[j];
    }
    if p.name == key && Named(front, key) && NumberOf(p, parse) == Some(w) {
      var i :| 0 <= i < n && front[i].name == key;
      assert ps[i] == front[i];
    }
  }

  /** One pass for a key seen before: its set gains the value. */
  lemma {:induction false} ValuesStepSeen(pv: map<string, set<real>>, front: seq<Piece>, p: Piece, parse: string -> Option<real>, v: real)
    requires KeysFrom(pv, front) && ValuesFrom(pv, front, parse)
    requires p.name in pv && NumberOf(p, parse) == Some(v)
    ensures ValuesFrom(pv[p.name := pv[p.name] + {v}], front + [p], parse)
  {
    var pv' := pv[p.name := pv[p.name] + {v}];
    forall key, w | key in pv'
      ensures w in pv'[key] <==> RepeatedWith(front + [p], key, w, parse)
    {
      RepeatedStep(front, p, parse, key, w);
    }
  }

  /** One pass for a new key: the key is registered with no value. */
  lemma {:induction false} ValuesStepNew(pv: map<string, set<real>>, front: seq<Piece>, p: Piece, parse: string -> Option<real>)
    requires KeysFrom(pv, front) && ValuesFrom(pv, front, parse)
    requires p.name !in pv
    ensures ValuesFrom(pv[p.name := {}], front + [p], parse)
  {
    var pv' := pv[p.name := {}];
    forall key, w | key in pv'
      ensures w in pv'[key] <==> RepeatedWith(front + [p], key, w, parse)
    {
      RepeatedStep(front, p, parse, key, w);
    }
  }

  /**
   * The quirk of the parser: a key is listed once it occurs at all, but a
   * value is kept only when it comes with a second or later occurrence of
   * its key, so the value of each key's first occurrence is dropped. The
   * parse succeeds exactly when every piece has a value that parses.
   */
  lemma {:induction false} CollectMeaning(ps: seq<Piece>, parse: string -> Option<real>)
    ensures Collect(ps, parse).Ok? <==> AllNumbers(ps, parse)
    ensures Collect(ps, parse).Ok? ==> KeysFrom(Collect(ps, parse).value, ps)
    ensures Collect(ps, parse).Ok? ==> ValuesFrom(Collect(ps, parse).value, ps, parse)
    decreases |ps|
  {
    if ps != [] {
      var n := |ps| - 1;
      var front := ps[..n];
      var p := ps[n];
      assert front + [p] == ps;
      assert forall i :: 0 <= i < n ==> front[i] == ps[i];
      CollectMeaning(front, parse);
      if Collect(front, parse).Ok? {
        RegisterMeaning(Collect(front, parse).value, front, p, parse);
      }
    }
  }

  /** One piece registered into the sets of the pieces before it. */
  lemma {:induction false} RegisterMeaning(pv: map<string, set<real>>, front: seq<Piece>, p: Piece, parse: string -> Option<real>)
    requires KeysFrom(pv, front) && ValuesFrom(pv, front, parse)
    ensures Register(pv, p, parse).Ok? <==> NumberOf(p, parse).Some?
    ensures Register(pv, p, parse).Ok? ==> KeysFrom(Register(pv, p, parse).value, front + [p])
    ensures Register(pv, p, parse).Ok? ==> ValuesFrom(Register(pv, p, parse).value, front + [p], parse)
  {
    if NumberOf(p, parse).Some? {
      var v := NumberOf(p, parse).value;
      if p.name in pv {
        KeysStep(pv, front, p, pv[p.name] + {v});
        ValuesStepSeen(pv, front, p, parse, v);
      } else {
        KeysStep(pv, front, p, {});
        ValuesStepNew(pv, front, p, parse);
      }
    }
  }

  /**
   * The text a key string is parsed from is what follows the last
   * `analyze_<root>`: it holds no such marker, and the key string ends with
   * it, right after a marker when there is one, or is all of the key string
   * when there is none.
   */
  lemma {:induction false} ConfigStringAfterMarker(k: string, root: string)
    ensures var c := ConfigString(k, root);
      |c| <= |k| && c == k[|k| - |c|..] && !Contains(c, "analyze_" + root)
    ensures var c, m := ConfigString(k, root), "analyze_" + root;
      !Contains(k, m) ==> c == k
    ensures var c, m := ConfigString(k, root), "analyze_" + root;
      Contains(k, m) ==> |c| + |m| <= |k| && m <= k[|k| - |c| - |m|..]
  {
    LastPiece(k, "analyze_" + root, ConfigString(k, root));
  }

  /** Ascending, without repetition. */
  predicate StrictlyIncreasing(xs: seq<real>)
  {
    forall i, j :: 0 <= i < j < |xs| ==> xs[i] < xs[j]
  }

  /** `sorted(list(s))`: the elements of s listed in ascending order. */
  ghost predicate SortedListOf(xs: seq<real>, s: set<real>)
  {
    StrictlyIncreasing(xs) && forall y :: y in xs <==> y in s
  }

  /** An ascending list is its least element followed by an ascending rest of larger elements. */
  lemma {:induction false} HeadAndTail(xs: seq<real>)
    requires StrictlyIncreasing(xs) && xs != []
    ensures xs == [xs[0]] + xs[1..]
    ensures StrictlyIncreasing(xs[1..])
    ensures forall y :: y in xs <==> y == xs[0] || y in xs[1..]
    ensures forall y :: y in xs[1..] ==> xs[0] < y
  {
    var t := xs[1..];
    forall y | y in t
      ensures xs[0] < y
    {
      var k :| 0 <= k < |t| && t[k] == y;
      assert xs[k + 1] == y;
    }
  }

  /** A smaller element in front of an ascending list keeps it ascending. */
  lemma {:induction false} ConsIncreasing(h: real, rest: seq<real>)
    requires StrictlyIncreasing(rest)
    requires forall y :: y in rest ==> h < y
    ensures StrictlyIncreasing([h] + rest)
    ensures forall y :: y in [h] + rest <==> y == h || y in rest
  {
    var ys := [h] + rest;
    forall i, j | 0 <= i < j < |ys|
      ensures ys[i] < ys[j]
    {
      assert ys[j] == rest[j - 1];
      assert rest[j - 1] in rest;
      if i > 0 {
        assert ys[i] == rest[i - 1];
      }
    }
  }

  /** x put into its place in an ascending list. */
  function Insert(xs: seq<real>, x: real): (ys: seq<real>)
    requires StrictlyIncreasing(xs) && x !in xs
    ensures StrictlyIncreasing(ys)
    ensures forall y :: y in ys <==> y in xs || y == x
  {
    if xs == [] then [x]
    else
      HeadAndTail(xs);
      if x < xs[0] then
        ConsIncreasing(x, xs);
        [x] + xs
      else
        var rest := Insert(xs[1..], x);
        ConsIncreasing(xs[0], rest);
        [xs[0]] + rest
  }

  /** A set that is not empty has an element. */
  lemma {:induction false} NonEmptyHasElement(s: set<real>)
    requires s != {}
    ensures exists x :: x in s
  {
    if forall x :: x !in s {
      assert false;
    }
  }

  /** `sorted(list(s))`; how Python sorts is not modelled, only its result. */
  method SortSet(s: set<real>) returns (xs: seq<real>)
    ensures SortedListOf(xs, s)
  {
    xs := [];
    var rest := s;
    while rest != {}
      invariant StrictlyIncreasing(xs)
      invariant forall y :: y in s <==> y in xs || y in rest
      invariant forall y :: y in xs ==> y !in rest
      decreases |rest|
    {
      NonEmptyHasElement(rest);
      var x :| x in rest;
      xs := Insert(xs, x);
      rest := rest - {x};
    }
  }

  /** Lines 78-79: every set of the dictionary replaced by its sorted list. */
  method SortValues(pv: map<string, set<real>>) returns (sorted: map<string, seq<real>>)
    ensures sorted.Keys == pv.Keys
    ensures forall key :: key in pv ==> SortedListOf(sorted[key], pv[key])
  {
    sorted := map[];
    var remaining := pv.Keys;
    while remaining != {}
      invariant remaining <= pv.Keys
      invariant sorted.Keys == pv.Keys - remaining
      invariant forall key :: key in sorted ==> SortedListOf(sorted[key], pv[key])
      decreases |remaining|
    {
      assert |remaining| != 0;
      var key :| key in remaining;
      var xs := SortSet(pv[key]);
      sorted := sorted[key := xs];
      remaining := remaining - {key};
    }
  }

  /** Collect on one more piece. */
  lemma {:induction false} CollectSnoc(done: seq<Piece>, p: Piece, parse: string -> Option<real>)
    requires Collect(done, parse).Ok?
    ensures Collect(done + [p], parse) == Register(Collect(done, parse).value, p, parse)
  {
    assert (done + [p])[..|done|] == done;
  }

  /** A failing piece settles the result of the pieces around it. */
  lemma {:induction false} PieceFails(done: seq<Piece>, p: Piece, after: seq<Piece>, parse: string -> Option<real>)
    requires Collect(done, parse).Ok?
    requires Register(Collect(done, parse).value, p, parse).Err?
    ensures Collect(done + [p] + after, parse) == Register(Collect(done, parse).value, p, parse)
  {
    CollectSnoc(done, p, parse);
    CollectErrSticky(done + [p], after, parse);
  }

  /** The pieces around piece j. */
  lemma {:induction false} CutAt<T>(before: seq<T>, ps: seq<T>, j: nat)
    requires j < |ps|
    ensures before + ps == before + ps[..j] + [ps[j]] + ps[j + 1..]
    ensures before + ps[..j + 1] == before + ps[..j] + [ps[j]]
  {
    assert ps == ps[..j] + [ps[j]] + ps[j + 1..];
    assert ps[..j + 1] == ps[..j] + [ps[j]];
  }

  /** Lines 67-76 for the pieces of one key string, continuing from the dictionary pv. */
  method RegisterPieces(pv: map<string, set<real>>, ps: seq<Piece>, ghost before: seq<Piece>, parse: string -> Option<real>)
    returns (r: Result<map<string, set<real>>, ParseError>)
    requires Collect(before, parse) == Ok(pv)
    ensures r == Collect(before + ps, parse)
  {
    var paramValues := pv;
    ghost var done := before;
    assert before + ps[..0] == before;
    for j := 0 to |ps|
      invariant done == before + ps[..j]
      invariant Collect(done, parse) == Ok(paramValues)
    {
      var kvp := ps[j];
      CutAt(before, ps, j);
      if kvp.value.None? {
        PieceFails(done, kvp, ps[j + 1..], parse);
        return Err(MissingValue(kvp.name));
      }
      var strValue := ReplaceChar(kvp.value.value, ',', '.');
      var value := parse(strValue);
      if value.None? {
        PieceFails(done, kvp, ps[j + 1..], parse);
        return Err(BadNumber(strValue));
      }
      if kvp.name in paramValues {
        paramValues := paramValues[kvp.name := paramValues[kvp.name] + {value.value}];
      } else {
        paramValues := paramValues[kvp.name := {}];
      }
      CollectSnoc(done, kvp, parse);
      done := done + [kvp];
    }
    assert ps[..|ps|] == ps;
    r := Ok(paramValues);
  }

  /**
   * `get_param_values_from_list_of_config_strings(key_iterable, root_name)`:
   * the values each parameter takes, sorted, and the parameter names of
   * the first key string.
   */
  method GetParamValues(keyIterable: seq<string>, root: string, parse: string -> Option<real>)
    returns (r: Result<(map<string, seq<real>>, seq<string>), ParseError>)
    ensures r.Err? <==> ParamValues(keyIterable, root, parse).Err?
    ensures r.Err? ==> r.error == ParamValues(keyIterable, root, parse).error
    ensures r.Ok? ==> r.value.1 == ParamValues(keyIterable, root, parse).value.1
    ensures r.Ok? ==> var pv := ParamValues(keyIterable, root, parse).value.0;
      r.value.0.Keys == pv.Keys && forall key :: key in pv ==> SortedListOf(r.value.0[key], pv[key])
  {
    var paramValues: map<string, set<real>> := map[];
    var keyOrder: Option<seq<string>> := None;
    for ik := 0 to |keyIterable|
      invariant Collect(AllPieces(keyIterable[..ik], root), parse) == Ok(paramValues)
      invariant keyOrder == if ik == 0 then None else Some(KeyNames(keyIterable[0], root))
    {
      var kvps := ConfigPieces(keyIterable[ik], root);
      if ik == 0 {
        keyOrder := Some(seq(|kvps|, i requires 0 <= i < |kvps| => kvps[i].name));
      }
      assert keyIterable[..ik + 1][..ik] == keyIterable[..ik];
      var step := RegisterPieces(paramValues, kvps, AllPieces(keyIterable[..ik], root), parse);
      if step.Err? {
        StringFails(keyIterable, root, parse, ik);
        return Err(step.error);
      }
      paramValues := step.value;
    }
    assert keyIterable[..|keyIterable|] == keyIterable;
    if keyOrder.None? {
      return Err(NoKeys);
    }
    var sorted := SortValues(paramValues);
    r := Ok((sorted, keyOrder.value));
  }

  /** A key string whose pieces fail settles the whole result. */
  lemma {:induction false} StringFails(keys: seq<string>, root: string, parse: string -> Option<real>, ik: nat)
    requires ik < |keys|
    requires Collect(AllPieces(keys[..ik + 1], root), parse).Err?
    ensures ParamValues(keys, root, parse) == Err(Collect(AllPieces(keys[..ik + 1], root), parse).error)
  {
    var done := AllPieces(keys[..ik + 1], root);
    var all := AllPieces(keys, root);
    AllPiecesPrefix(keys, root, ik + 1);
    assert all == done + all[|done|..];
    CollectErrSticky(done, all[|done|..], parse);
  }
}
