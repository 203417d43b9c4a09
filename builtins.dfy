/**
 * The few Python built-ins the modelled code leans on: the `in` test on
 * strings, `str.split` with a non-empty separator, `str.join`,
 * `str.replace` on one character, `str(n)` on a natural number, and the
 * ordered key/value view of a `dict`.
 */
module PyBuiltins {

  /** `sep in s`: sep occurs in s as a contiguous substring. */
  predicate Contains(s: string, sep: string)
    decreases |s|
  {
    sep <= s || (s != [] && Contains(s[1..], sep))
  }

  /** No occurrence of sep starts at a position of s below n. */
  predicate NoMatchBefore(s: string, sep: string, n: nat)
    requires n <= |s|
  {
    forall p :: 0 <= p < n ==> !(sep <= s[p..])
  }

  /**
   * `s.split(sep)` for a non-empty separator: s is scanned left to right
   * and cut at every occurrence of sep that does not overlap an earlier
   * cut, so there is always one piece more than there are cuts.
   */
  function Split(s: string, sep: string): (pieces: seq<string>)
    requires sep != []
    ensures |pieces| >= 1
    decreases |s|
  {
    if sep <= s then [""] + Split(s[|sep|..], sep)
    else if s == [] then [""]
    else
      var rest := Split(s[1..], sep);
      [[s[0]] + rest[0]] + rest[1..]
  }

  /** `sep.join(pieces)`. */
  function Join(pieces: seq<string>, sep: string): string
  {
    if pieces == [] then ""
    else if |pieces| == 1 then pieces[0]
    else pieces[0] + sep + Join(pieces[1..], sep)
  }

  /** `sep in s` exactly when some position of s starts an occurrence of sep. */
  lemma {:induction false} ContainsIffMatch(s: string, sep: string)
    requires sep != []
    ensures Contains(s, sep) <==> !NoMatchBefore(s, sep, |s|)
    decreases |s|
  {
    if s == [] {
    } else if sep <= s {
      assert s[0..] == s;
    } else {
      ContainsIffMatch(s[1..], sep);
      if Contains(s[1..], sep) {
        var p :| 0 <= p < |s| - 1 && sep <= s[1..][p..];
        assert s[1..][p..] == s[p + 1..];
      }
      if !NoMatchBefore(s, sep, |s|) {
        var p :| 0 <= p < |s| && sep <= s[p..];
        assert p != 0 by { assert s[0..] == s; }
        assert s[1..][p - 1..] == s[p..];
        assert !NoMatchBefore(s[1..], sep, |s| - 1);
      }
    }
  }

  /** Joining after an empty first piece puts sep in front. */
  lemma {:induction false} JoinEmptyHead(rest: seq<string>, sep: string)
    requires rest != []
    ensures Join([""] + rest, sep) == sep + Join(rest, sep)
  {
    var ps := [""] + rest;
    assert ps[0] == "" && ps[1..] == rest;
    assert "" + sep + Join(rest, sep) == sep + Join(rest, sep);
  }

  /** Joining after a first piece that gained a character in front puts that character in front. */
  lemma {:induction false} JoinConsHead(c: char, rest: seq<string>, sep: string)
    requires rest != []
    ensures Join([[c] + rest[0]] + rest[1..], sep) == [c] + Join(rest, sep)
  {
    var head := [c] + rest[0];
    var ps := [head] + rest[1..];
    assert ps[0] == head && ps[1..] == rest[1..];
    if |rest| > 1 {
      assert Join(ps, sep) == head + sep + Join(rest[1..], sep);
      assert head + sep + Join(rest[1..], sep) == [c] + (rest[0] + sep + Join(rest[1..], sep));
    } else {
      assert rest == [rest[0]];
    }
  }

  /** One step of SplitJoin: a string that starts with sep. */
  lemma {:induction false} JoinSplitAtMatch(s: string, sep: string)
    requires sep != [] && sep <= s
    requires Join(Split(s[|sep|..], sep), sep) == s[|sep|..]
    ensures Join(Split(s, sep), sep) == s
  {
    var tail := s[|sep|..];
    var rest := Split(tail, sep);
    assert Split(s, sep) == [""] + rest;
    JoinEmptyHead(rest, sep);
    assert s == sep + tail;
  }

  /** One step of SplitJoin: a string whose first character is not the start of a match. */
  lemma {:induction false} JoinSplitAtChar(s: string, sep: string)
    requires sep != [] && !(sep <= s) && s != []
    requires Join(Split(s[1..], sep), sep) == s[1..]
    ensures Join(Split(s, sep), sep) == s
  {
    var rest := Split(s[1..], sep);
    var ps := [[s[0]] + rest[0]] + rest[1..];
    SplitAtChar(s, sep);
    JoinConsHead(s[0], rest, sep);
    calc {
      Join(Split(s, sep), sep);
      Join(ps, sep);
      [s[0]] + Join(rest, sep);
      [s[0]] + s[1..];
      { assert s == [s[0]] + s[1..]; }
      s;
    }
  }

  /** Splitting and joining again gives back the string. */
  lemma {:induction false} SplitJoin(s: string, sep: string)
    requires sep != []
    ensures Join(Split(s, sep), sep) == s
    decreases |s|
  {
    if sep <= s {
      SplitJoin(s[|sep|..], sep);
      JoinSplitAtMatch(s, sep);
    } else if s != [] {
      SplitJoin(s[1..], sep);
      JoinSplitAtChar(s, sep);
    }
  }

  /**
   * The first piece of `s.split(sep)` is the text before the first
   * occurrence of sep; when there is an occurrence, the remaining pieces
   * are the split of the text after it.
   */
  ghost predicate FirstPieceIsBeforeFirstMatch(s: string, sep: string)
    requires sep != []
  {
    FirstPieceShape(s, sep, Split(s, sep))
  }

  /** FirstPieceIsBeforeFirstMatch for a given list of pieces ps. */
  ghost predicate FirstPieceShape(s: string, sep: string, ps: seq<string>)
    requires sep != [] && ps != []
  {
    && |ps[0]| <= |s| && ps[0] == s[..|ps[0]|] && NoMatchBefore(s, sep, |ps[0]|)
    && (|ps| == 1 ==> ps[0] == s)
    && (|ps| >= 2 ==> |ps[0]| + |sep| <= |s| && sep <= s[|ps[0]|..]
                      && Split(s[|ps[0]| + |sep|..], sep) == ps[1..])
  }

  /** One step of SplitFirst: a string whose first character is not the start of a match. */
  lemma {:induction false} FirstPieceAtChar(s: string, sep: string)
    requires sep != [] && !(sep <= s) && s != []
    requires FirstPieceIsBeforeFirstMatch(s[1..], sep)
    ensures FirstPieceIsBeforeFirstMatch(s, sep)
  {
    SplitAtChar(s, sep);
    ShapeAtChar(s, sep, Split(s[1..], sep));
  }

  /** The pieces of s[1..] with s[0] put in front of the first one have the shape for s. */
  lemma {:induction false} ShapeAtChar(s: string, sep: string, rest: seq<string>)
    requires sep != [] && !(sep <= s) && s != [] && rest != []
    requires FirstPieceShape(s[1..], sep, rest)
    ensures FirstPieceShape(s, sep, [[s[0]] + rest[0]] + rest[1..])
  {
    var t := s[1..];
    var r0 := rest[0];
    var p0 := [s[0]] + r0;
    var ps := [p0] + rest[1..];
    assert ps[0] == p0 && |p0| == 1 + |r0|;
    assert s[..|p0|] == [s[0]] + t[..|r0|];
    NoMatchAtChar(s, sep, |r0|);
    if |ps| == 1 {
      assert s == [s[0]] + t;
    }
    if |ps| >= 2 {
      assert ps[1..] == rest[1..];
      assert s[|p0|..] == t[|r0|..];
      assert s[|p0| + |sep|..] == t[|r0| + |sep|..];
    }
  }

  /** No match in the first n characters of s[1..], none at s[0]: none in the first n + 1 of s. */
  lemma {:induction false} NoMatchAtChar(s: string, sep: string, n: nat)
    requires s != [] && !(sep <= s) && n < |s|
    requires NoMatchBefore(s[1..], sep, n)
    ensures NoMatchBefore(s, sep, n + 1)
  {
    forall p | 0 <= p < n + 1
      ensures !(sep <= s[p..])
    {
      if p == 0 {
        assert s[0..] == s;
      } else {
        assert s[p..] == s[1..][p - 1..];
      }
    }
  }

  /** Where the first piece of a split ends, see FirstPieceIsBeforeFirstMatch. */
  lemma {:induction false} SplitFirst(s: string, sep: string)
    requires sep != []
    ensures FirstPieceIsBeforeFirstMatch(s, sep)
    decreases |s|
  {
    if sep <= s {
      assert s[..0] == [];
      assert s[0..] == s;
    } else if s != [] {
      SplitFirst(s[1..], sep);
      FirstPieceAtChar(s, sep);
    }
  }

  /** `sep in s` exactly when splitting on sep gives at least two pieces. */
  lemma {:induction false} ContainsIffSplits(s: string, sep: string)
    requires sep != []
    ensures Contains(s, sep) <==> |Split(s, sep)| >= 2
    decreases |s|
  {
    if !(sep <= s) && s != [] {
      ContainsIffSplits(s[1..], sep);
    }
  }

  /**
   * The last piece of `s.split(sep)` is the text after the last occurrence
   * of sep: a suffix of s that holds no sep, preceded by sep when there was
   * a cut.
   */
  ghost predicate LastPieceIsAfterLastMatch(s: string, sep: string)
    requires sep != []
  {
    LastPieceShape(s, sep, Split(s, sep))
  }

  /** LastPieceIsAfterLastMatch for a given list of pieces ps. */
  ghost predicate LastPieceShape(s: string, sep: string, ps: seq<string>)
    requires sep != [] && ps != []
  {
    var last := ps[|ps| - 1];
    && |last| <= |s| && last == s[|s| - |last|..] && !Contains(last, sep)
    && (|ps| >= 2 ==> |last| + |sep| <= |s| && sep <= s[|s| - |last| - |sep|..])
  }

  /** Where the last piece of a split starts, see LastPieceIsAfterLastMatch. */
  lemma {:induction false} SplitLast(s: string, sep: string)
    requires sep != []
    ensures LastPieceIsAfterLastMatch(s, sep)
    decreases |s|
  {
    var ps := Split(s, sep);
    SplitFirst(s, sep);
    if |ps| == 1 {
      ContainsIffMatch(s, sep);
      assert s[|s| - |s|..] == s;
    } else {
      var k := |ps[0]|;
      var tail := s[k + |sep|..];
      SplitLast(tail, sep);
      SplitFirst(tail, sep);
      var ts := Split(tail, sep);
      if |ts| >= 2 {
        LastPieceOfLongTail(s, sep, k, tail, ps, ts);
      } else {
        LastPieceOfShortTail(s, sep, k, tail, ps, ts);
      }
    }
  }

  /**
   * The last piece of a split holds no sep and ends s: right after the last
   * occurrence of sep when there is one, and it is all of s when there is none.
   */
  lemma {:induction false} LastPiece(s: string, sep: string, last: string)
    requires sep != [] && last == Split(s, sep)[|Split(s, sep)| - 1]
    ensures |last| <= |s| && last == s[|s| - |last|..] && !Contains(last, sep)
    ensures !Contains(s, sep) ==> last == s
    ensures Contains(s, sep) ==> |last| + |sep| <= |s| && sep <= s[|s| - |last| - |sep|..]
  {
    SplitLast(s, sep);
    ContainsIffSplits(s, sep);
    if !Contains(s, sep) {
      SplitWithout(s, sep);
    }
  }

  /** One step of SplitLast when the text after the first cut holds another cut. */
  lemma {:induction false} LastPieceOfLongTail(s: string, sep: string, k: nat, tail: string, ps: seq<string>, ts: seq<string>)
    requires sep != [] && k + |sep| <= |s| && sep <= s[k..] && tail == s[k + |sep|..]
    requires |ps| >= 2 && ps[1..] == ts && |ts| >= 2
    requires LastPieceShape(tail, sep, ts)
    ensures LastPieceShape(s, sep, ps)
  {
    var last := ps[|ps| - 1];
    assert last == ts[|ts| - 1];
    assert tail[|tail| - |last|..] == s[|s| - |last|..];
    var j := |tail| - |last| - |sep|;
    assert sep <= tail[j..];
    assert tail[j..] == s[k + |sep| + j..];
  }

  /** One step of SplitLast when the text after the first cut is the last piece. */
  lemma {:induction false} LastPieceOfShortTail(s: string, sep: string, k: nat, tail: string, ps: seq<string>, ts: seq<string>)
    requires sep != [] && k + |sep| <= |s| && sep <= s[k..] && tail == s[k + |sep|..]
    requires |ps| >= 2 && ps[1..] == ts && ts == [tail]
    requires LastPieceShape(tail, sep, ts)
    ensures LastPieceShape(s, sep, ps)
  {
    assert ps[|ps| - 1] == ts[0] == tail;
    SuffixAfterMatch(s, sep, k, tail);
  }

  /** The text after a match at k is a suffix of s with the match right before it. */
  lemma {:induction false} SuffixAfterMatch(s: string, sep: string, k: nat, tail: string)
    requires k + |sep| <= |s| && sep <= s[k..] && tail == s[k + |sep|..]
    ensures |tail| + |sep| <= |s| && tail == s[|s| - |tail|..] && sep <= s[|s| - |tail| - |sep|..]
  {
    assert |s| - |tail| - |sep| == k;
  }

  /** A string that starts with sep splits into an empty piece followed by the split of the rest. */
  lemma {:induction false} SplitAfterPrefix(sep: string, t: string)
    requires sep != []
    ensures Split(sep + t, sep) == [""] + Split(t, sep)
  {
    assert sep <= sep + t;
    assert (sep + t)[|sep|..] == t;
  }

  /** A string without sep is one piece. */
  lemma {:induction false} SplitWithout(s: string, sep: string)
    requires sep != [] && !Contains(s, sep)
    ensures Split(s, sep) == [s]
  {
    ContainsIffSplits(s, sep);
    SplitFirst(s, sep);
  }

  /** One step of SplitCharConcat: a string that starts with the separator. */
  lemma {:induction false} CharConcatAtMatch(a: string, c: char, b: string)
    requires a != [] && a[0] == c
    requires Split(a[1..] + [c] + b, [c]) == Split(a[1..], [c]) + Split(b, [c])
    ensures Split(a + [c] + b, [c]) == Split(a, [c]) + Split(b, [c])
  {
    var t := a[1..];
    assert a == [c] + t;
    assert a + [c] + b == [c] + (t + [c] + b);
    SplitAfterPrefix([c], t + [c] + b);
    SplitAfterPrefix([c], t);
    calc {
      Split(a + [c] + b, [c]);
      [""] + Split(t + [c] + b, [c]);
      [""] + (Split(a[1..], [c]) + Split(b, [c]));
      ([""] + Split(a[1..], [c])) + Split(b, [c]);
      Split(a, [c]) + Split(b, [c]);
    }
  }


  /** A character put in front of the first piece stays in front when pieces follow. */
  lemma {:induction false} ConsHeadAppend(c: char, r: seq<string>, t: seq<string>)
    requires r != []
    ensures [[c] + r[0]] + r[1..] + t == [[c] + (r + t)[0]] + (r + t)[1..]
  {
    assert (r + t)[0] == r[0];
    assert (r + t)[1..] == r[1..] + t;
  }

  /** One step of SplitCharConcat: a string that starts with another character. */
  lemma {:induction false} CharConcatAtChar(a: string, c: char, b: string)
    requires a != [] && a[0] != c
    requires Split(a[1..] + [c] + b, [c]) == Split(a[1..], [c]) + Split(b, [c])
    ensures Split(a + [c] + b, [c]) == Split(a, [c]) + Split(b, [c])
  {
    var s := a + [c] + b;
    assert s[0] == a[0];
    assert s[1..] == a[1..] + [c] + b;
    SplitAtChar(s, [c]);
    SplitAtChar(a, [c]);
    ConsHeadAppend(a[0], Split(a[1..], [c]), Split(b, [c]));
  }

  /** How Split goes on past a character that does not start a match. */
  lemma {:induction false} SplitAtChar(s: string, sep: string)
    requires sep != [] && s != [] && !(sep <= s)
    ensures Split(s, sep) == [[s[0]] + Split(s[1..], sep)[0]] + Split(s[1..], sep)[1..]
  {
  }

  /** For a one-character separator, splitting distributes over a join at that character. */
  lemma {:induction false} SplitCharConcat(a: string, c: char, b: string)
    ensures Split(a + [c] + b, [c]) == Split(a, [c]) + Split(b, [c])
    decreases |a|
  {
    if a == [] {
      assert a + [c] + b == [c] + b;
      SplitAfterPrefix([c], b);
    } else {
      SplitCharConcat(a[1..], c, b);
      if a[0] == c {
        CharConcatAtMatch(a, c, b);
      } else {
        CharConcatAtChar(a, c, b);
      }
    }
  }

  /** `s.replace(a, b)` for single characters. */
  function ReplaceChar(s: string, a: char, b: char): (r: string)
    ensures |r| == |s|
    ensures forall i :: 0 <= i < |s| ==> r[i] == (if s[i] == a then b else s[i])
  {
    if s == [] then [] else [if s[0] == a then b else s[0]] + ReplaceChar(s[1..], a, b)
  }

  function DigitChar(d: nat): (c: char)
    requires d < 10
  {
    "0123456789"[d]
  }

  function DigitValue(c: char): int
  {
    c as int - '0' as int
  }

  /** `str(n)` (also `'{}'.format(n)`) for a natural number: its decimal digits. */
  function NatToString(n: nat): (s: string)
    ensures |s| >= 1
    decreases n
  {
    if n < 10 then [DigitChar(n)] else NatToString(n / 10) + [DigitChar(n % 10)]
  }

  /** The value of a string of decimal digits, most significant first. */
  function DigitsValue(s: string): int
  {
    if s == [] then 0 else DigitsValue(s[..|s| - 1]) * 10 + DigitValue(s[|s| - 1])
  }

  /** Reading the decimal digits back gives the number. */
  lemma {:induction false} NatToStringRoundTrip(n: nat)
    ensures DigitsValue(NatToString(n)) == n
    decreases n
  {
    var s := NatToString(n);
    if n < 10 {
      assert s[..0] == [];
    } else {
      NatToStringRoundTrip(n / 10);
      assert s[..|s| - 1] == NatToString(n / 10);
    }
  }

  /** Distinct numbers print differently. */
  lemma {:induction false} NatToStringInjective(m: nat, n: nat)
    requires NatToString(m) == NatToString(n)
    ensures m == n
  {
    NatToStringRoundTrip(m);
    NatToStringRoundTrip(n);
  }

  /** The keys of a Python dict listed in iteration order: no key twice. */
  predicate DistinctKeys<K(==), V>(kvs: seq<(K, V)>)
  {
    forall i, j :: 0 <= i < j < |kvs| ==> kvs[i].0 != kvs[j].0
  }
}
