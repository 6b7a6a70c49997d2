/** The parts of Go's `strings` package that goss relies on, for a single
    separator or cut character. */
module GoStrings {

  /** strings.HasPrefix: `s` is `prefix` followed by the rest of `s`. */
  predicate HasPrefix(s: string, prefix: string): (b: bool)
    ensures b <==> |prefix| <= |s| && prefix + s[|prefix|..] == s
  {
    |prefix| <= |s| && s[..|prefix|] == prefix
  }

  /** `n` copies of `c` (strings.Repeat of a one-character string). */
  function Repeat(c: char, n: nat): (r: string)
    ensures |r| == n
    ensures forall k :: 0 <= k < n ==> r[k] == c
  {
    seq(n, _ => c)
  }

  /** strings.IndexByte: the first index of `c` in `s`, or -1. */
  function IndexByte(s: string, c: char): (i: int)
    ensures -1 <= i < |s|
    ensures i == -1 <==> c !in s
    ensures 0 <= i ==> s[i] == c && c !in s[..i]
  {
    if |s| == 0 then -1
    else if s[0] == c then 0
    else
      var j := IndexByte(s[1..], c);
      if j < 0 then -1
      else
        assert s[1..][..j] == s[1..j + 1];
        j + 1
  }

  /** Where the first `c`-separated field of `s` ends: the first `c`, or the end. */
  function FieldEnd(s: string, c: char): (e: nat)
    ensures e <= |s| && c !in s[..e]
    ensures e < |s| ==> s[e] == c
  {
    var i := IndexByte(s, c);
    if i < 0 then |s| else i
  }

  /** strings.Split with a one-character separator. */
  function Split(s: string, c: char): (parts: seq<string>)
    ensures |parts| >= 1
    ensures parts[0] == s[..FieldEnd(s, c)]
    ensures forall k :: 0 <= k < |parts| ==> c !in parts[k]
    decreases |s|
  {
    var i := IndexByte(s, c);
    if i < 0 then [s]
    else
      var tail := Split(s[i + 1..], c);
      PrependPiece(s[..i], tail, c);
      [s[..i]] + tail
  }

  /** A piece without the separator, put in front of pieces without it. */
  lemma PrependPiece(h: string, tail: seq<string>, c: char)
    requires c !in h
    requires forall k :: 0 <= k < |tail| ==> c !in tail[k]
    ensures forall k :: 0 <= k < |[h] + tail| ==> c !in ([h] + tail)[k]
  {
    var parts := [h] + tail;
    forall k | 0 <= k < |parts|
      ensures c !in parts[k]
    {
      if k > 0 {
        assert parts[k] == tail[k - 1];
      }
    }
  }

  /** strings.Join with a one-character separator: the first piece comes
      first, and the separator follows it when there is another piece. */
  function Join(parts: seq<string>, c: char): (r: string)
    ensures |parts| >= 1 ==> HasPrefix(r, parts[0])
    ensures |parts| >= 2 ==> |parts[0]| < |r| && r[|parts[0]|] == c
  {
    if |parts| == 0 then ""
    else if |parts| == 1 then parts[0]
    else parts[0] + [c] + Join(parts[1..], c)
  }

  /** A split at a separator is the first field followed by the split of
      the rest. */
  lemma {:induction false} SplitAt(s: string, c: char)
    requires 0 <= IndexByte(s, c)
    ensures Split(s, c) == [s[..IndexByte(s, c)]] + Split(s[IndexByte(s, c) + 1..], c)
  {
  }

  lemma JoinCons(h: string, tail: seq<string>, c: char)
    requires |tail| >= 1
    ensures Join([h] + tail, c) == h + [c] + Join(tail, c)
  {
    assert ([h] + tail)[1..] == tail;
  }

  /** Splitting text that holds no separator gives the text itself. */
  lemma {:induction false} SplitNone(s: string, c: char)
    requires IndexByte(s, c) < 0
    ensures Split(s, c) == [s]
  {
  }

  /** Joining a split at a separator: the first field, the separator, and
      the join of the split of the rest. */
  lemma {:induction false} JoinSplitStep(s: string, c: char, i: nat)
    requires i == IndexByte(s, c)
    ensures Join(Split(s, c), c) == s[..i] + [c] + Join(Split(s[i + 1..], c), c)
  {
    SplitAt(s, c);
    JoinCons(s[..i], Split(s[i + 1..], c), c);
  }

  /** Joining the pieces of a split gives back the original text. */
  lemma {:induction false} JoinSplit(s: string, c: char)
    ensures Join(Split(s, c), c) == s
    decreases |s|
  {
    var i := IndexByte(s, c);
    if i < 0 {
      SplitNone(s, c);
    } else {
      JoinSplit(s[i + 1..], c);
      JoinSplitRest(s, c, i);
    }
  }

  /** When the rest after the first separator joins back, so does `s`. */
  lemma {:induction false} JoinSplitRest(s: string, c: char, i: nat)
    requires i == IndexByte(s, c)
    requires Join(Split(s[i + 1..], c), c) == s[i + 1..]
    ensures Join(Split(s, c), c) == s
  {
    JoinSplitStep(s, c, i);
    CutAround(s, i);
  }

  lemma CutAround(s: string, i: nat)
    requires i < |s|
    ensures s == s[..i] + [s[i]] + s[i + 1..]
  {
  }

  lemma JoinReplaceHead(parts: seq<string>, h: string, c: char)
    requires |parts| >= 2
    ensures Join(parts[0 := h], c) == h + [c] + Join(parts[1..], c)
  {
    assert parts[0 := h][1..] == parts[1..];
  }

  lemma JoinReplaceFirstAt(s: string, c: char, h: string, i: nat)
    requires i == IndexByte(s, c)
    ensures Join(Split(s, c)[0 := h], c) == h + s[i..]
  {
    var rest := s[i + 1..];
    assert h + s[i..] == h + [c] + rest by {
      assert s[i..] == [c] + rest;
    }
    assert Join(Split(s, c)[0 := h], c) == h + [c] + Join(Split(rest, c), c) by {
      SplitAt(s, c);
      JoinReplaceHead(Split(s, c), h, c);
    }
    JoinSplit(rest, c);
  }

  /** Replacing the first field of a split and joining again splices the new
      text in front of everything from the first separator on. */
  lemma JoinReplaceFirst(s: string, c: char, h: string)
    ensures Join(Split(s, c)[0 := h], c) == h + s[FieldEnd(s, c)..]
  {
    var i := IndexByte(s, c);
    if i < 0 {
      assert Split(s, c) == [s];
      assert Split(s, c)[0 := h] == [h];
    } else {
      JoinReplaceFirstAt(s, c, h, i);
    }
  }

  lemma RepeatCons(c: char, n: nat)
    ensures [c] + Repeat(c, n) == Repeat(c, n + 1)
  {
  }

  lemma RepeatSnoc(c: char, n: nat)
    ensures Repeat(c, n) + [c] == Repeat(c, n + 1)
  {
  }

  /** strings.TrimLeft with a one-character cutset. */
  function TrimLeft(s: string, c: char): (r: string)
    ensures |r| <= |s| && s == Repeat(c, |s| - |r|) + r
    ensures r == [] || r[0] != c
  {
    if |s| > 0 && s[0] == c then
      var r := TrimLeft(s[1..], c);
      var k := |s| - 1 - |r|;
      RepeatCons(c, k);
      calc {
        s;
        [c] + s[1..];
        [c] + (Repeat(c, k) + r);
        ([c] + Repeat(c, k)) + r;
        Repeat(c, |s| - |r|) + r;
      }
      r
    else
      assert Repeat(c, 0) + s == s;
      s
  }

  /** strings.TrimRight with a one-character cutset. */
  function TrimRight(s: string, c: char): (r: string)
    ensures |r| <= |s| && s == r + Repeat(c, |s| - |r|)
    ensures r == [] || r[|r| - 1] != c
  {
    if |s| > 0 && s[|s| - 1] == c then
      var r := TrimRight(s[..|s| - 1], c);
      var k := |s| - 1 - |r|;
      RepeatSnoc(c, k);
      calc {
        s;
        s[..|s| - 1] + [c];
        (r + Repeat(c, k)) + [c];
        r + (Repeat(c, k) + [c]);
        r + Repeat(c, |s| - |r|);
      }
      r
    else
      assert s + Repeat(c, 0) == s;
      s
  }

  /** `t` neither starts nor ends with `c`. */
  predicate Unwrapped(t: string, c: char) {
    t == [] || (t[0] != c && t[|t| - 1] != c)
  }

  /** `s` is `t` with some number of `c` on each side. */
  ghost predicate WrappedIn(s: string, t: string, c: char) {
    exists a: nat, b: nat :: s == Repeat(c, a) + t + Repeat(c, b)
  }

  /** strings.Trim with a one-character cutset: every leading and every
      trailing `c` is removed. */
  function Trim(s: string, c: char): (r: string)
    ensures Unwrapped(r, c)
    ensures WrappedIn(s, r, c)
  {
    var left := TrimLeft(s, c);
    TrimBothEnds(s, c);
    TrimRight(left, c)
  }

  /** The pieces TrimLeft and then TrimRight cut off are runs of `c`. */
  lemma TrimBothEnds(s: string, c: char)
    ensures var left := TrimLeft(s, c);
            var r := TrimRight(left, c);
            && s == Repeat(c, |s| - |left|) + r + Repeat(c, |left| - |r|)
            && (r != [] ==> r[0] == left[0])
  {
    var left := TrimLeft(s, c);
    var r := TrimRight(left, c);
    var a, b := |s| - |left|, |left| - |r|;
    assert left == r + Repeat(c, b);
    assert s == Repeat(c, a) + left;
    assert s == Repeat(c, a) + r + Repeat(c, b);
  }

  lemma {:induction false} TrimLeftRepeat(a: nat, t: string, c: char)
    ensures TrimLeft(Repeat(c, a) + t, c) == TrimLeft(t, c)
  {
    if a > 0 {
      assert (Repeat(c, a) + t)[1..] == Repeat(c, a - 1) + t;
      TrimLeftRepeat(a - 1, t, c);
    } else {
      assert Repeat(c, a) + t == t;
    }
  }

  lemma {:induction false} TrimRightRepeat(t: string, b: nat, c: char)
    ensures TrimRight(t + Repeat(c, b), c) == TrimRight(t, c)
  {
    if b > 0 {
      var s := t + Repeat(c, b);
      assert s[..|s| - 1] == t + Repeat(c, b - 1);
      TrimRightRepeat(t, b - 1, c);
    } else {
      assert t + Repeat(c, b) == t;
    }
  }

  /** Trimming `t` wrapped in any number of `c` on either side gives `t`
      back, as long as `t` itself neither starts nor ends with `c`. */
  lemma TrimWrapped(a: nat, t: string, b: nat, c: char)
    requires Unwrapped(t, c)
    ensures Trim(Repeat(c, a) + t + Repeat(c, b), c) == t
  {
    var s := Repeat(c, a) + t + Repeat(c, b);
    var rest := t + Repeat(c, b);
    assert s == Repeat(c, a) + rest;
    TrimLeftRepeat(a, rest, c);
    if t == [] {
      assert TrimLeft(rest, c) == [] by {
        assert rest == Repeat(c, b) + [];
        TrimLeftRepeat(b, [], c);
      }
    } else {
      assert TrimLeft(rest, c) == rest by {
        assert rest[0] == t[0];
      }
      TrimRightRepeat(t, b, c);
    }
  }

  /** The trimmed text equals `t` exactly when the input is `t` wrapped in
      some number of `c` on each side (for a `t` that is not itself wrapped). */
  lemma TrimEqualsIff(s: string, t: string, c: char)
    requires Unwrapped(t, c)
    ensures Trim(s, c) == t <==> WrappedIn(s, t, c)
  {
    if WrappedIn(s, t, c) {
      var a: nat, b: nat :| s == Repeat(c, a) + t + Repeat(c, b);
      TrimWrapped(a, t, b, c);
    }
  }

  /** TrimEqualsIff for any `t`, holding vacuously when `t` is wrapped. */
  lemma TrimEqualsWhenUnwrapped(s: string, t: string, c: char)
    ensures Unwrapped(t, c) ==> (Trim(s, c) == t <==> WrappedIn(s, t, c))
  {
    if Unwrapped(t, c) {
      TrimEqualsIff(s, t, c);
    }
  }

  /** Trimming twice is trimming once. */
  lemma TrimIdempotent(s: string, c: char)
    ensures Trim(Trim(s, c), c) == Trim(s, c)
  {
    TrimWrapped(0, Trim(s, c), 0, c);
    assert Repeat(c, 0) + Trim(s, c) + Repeat(c, 0) == Trim(s, c);
  }
}
