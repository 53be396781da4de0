/** The generalised Feistel network behind SM4 and its key schedule, for any
    word type and any mixing step. */
module Feistel {

  /** One step combines a word, its three successors and a round key. */
  type Mix<!W> = (W, W, W, W, W) -> W

  /** The step undoes itself when the three successors come back in the
      opposite order: all that decryption needs. */
  ghost predicate Reversible<W(!new)>(mix: Mix<W>) {
    forall a, b, c, d, k :: mix(mix(a, b, c, d, k), d, c, b, k) == a
  }

  /** The running words X[0..n+4]. */
  function Trace<W>(mix: Mix<W>, x: seq<W>, rk: seq<W>, n: nat): (t: seq<W>)
    requires |x| == 4 && n <= |rk|
    ensures |t| == n + 4
  {
    if n == 0 then x
    else
      var t := Trace(mix, x, rk, n - 1);
      t + [mix(t[n - 1], t[n], t[n + 1], t[n + 2], rk[n - 1])]
  }

  function Reversed<X>(s: seq<X>): (r: seq<X>)
    ensures |r| == |s| && forall i :: 0 <= i < |s| ==> r[i] == s[|s| - 1 - i]
  {
    seq(|s|, i requires 0 <= i < |s| => s[|s| - 1 - i])
  }

  /** A block of four words: all rounds, then the last four words reversed. */
  function Crypt<W>(mix: Mix<W>, x: seq<W>, rk: seq<W>): (y: seq<W>)
    requires |x| == 4
    ensures |y| == 4
  {
    Reversed(Trace(mix, x, rk, |rk|)[|rk|..])
  }

  lemma {:induction false} TracePrefix<W>(mix: Mix<W>, x: seq<W>, rk: seq<W>, m: nat, n: nat)
    requires |x| == 4 && m <= n <= |rk|
    ensures Trace(mix, x, rk, m) == Trace(mix, x, rk, n)[..m + 4]
  {
    if m < n {
      TracePrefix(mix, x, rk, m, n - 1);
    }
  }

  /** Every word of a trace comes from the four before it. */
  lemma {:induction false} TraceStep<W>(mix: Mix<W>, x: seq<W>, rk: seq<W>, n: nat, i: nat)
    requires |x| == 4 && i < n <= |rk|
    ensures var t := Trace(mix, x, rk, n);
            t[i + 4] == mix(t[i], t[i + 1], t[i + 2], t[i + 3], rk[i])
  {
    TracePrefix(mix, x, rk, i + 1, n);
    TracePrefix(mix, x, rk, i, n);
    var t, u := Trace(mix, x, rk, n), Trace(mix, x, rk, i);
    assert forall j :: 0 <= j < i + 4 ==> u[j] == t[j];
    assert Trace(mix, x, rk, i + 1)[i + 4] == t[i + 4];
  }

  /** Running the network from the reversed last four words, with the keys in
      the opposite order, walks the trace backwards. */
  lemma {:induction false} TraceBackwards<W(!new)>(mix: Mix<W>, x: seq<W>, rk: seq<W>, k: nat, i: nat)
    requires |x| == 4 && k <= |rk| && i < k + 4 && Reversible(mix)
    ensures Trace(mix, Crypt(mix, x, rk), Reversed(rk), k)[i] == Trace(mix, x, rk, |rk|)[|rk| + 3 - i]
  {
    var n, t := |rk|, Trace(mix, x, rk, |rk|);
    if i < 4 {
      TracePrefix(mix, Crypt(mix, x, rk), Reversed(rk), 0, k);
    } else if i < k + 3 {
      TraceBackwards(mix, x, rk, k - 1, i);
    } else {
      TraceBackwards(mix, x, rk, k - 1, k - 1);
      TraceBackwards(mix, x, rk, k - 1, k);
      TraceBackwards(mix, x, rk, k - 1, k + 1);
      TraceBackwards(mix, x, rk, k - 1, k + 2);
      TraceStep(mix, x, rk, n, n - k);
    }
  }

  /** Encryption with the round keys in the opposite order undoes encryption,
      whatever the mixing step, the keys and their number. */
  lemma CryptInverts<W(!new)>(mix: Mix<W>, x: seq<W>, rk: seq<W>)
    requires |x| == 4 && Reversible(mix)
    ensures Crypt(mix, Crypt(mix, x, rk), Reversed(rk)) == x
  {
    var n := |rk|;
    forall i | 0 <= i < 4
      ensures Crypt(mix, Crypt(mix, x, rk), Reversed(rk))[i] == x[i]
    {
      TraceBackwards(mix, x, rk, n, n + 3 - i);
      TracePrefix(mix, x, rk, 0, n);
    }
  }

  /** The round loop, keys first to last. */
  method Rounds<W>(mix: Mix<W>, x: array<W>, rk: seq<W>)
    requires x.Length == |rk| + 4
    modifies x
    ensures x[..] == Trace(mix, old(x[..4]), rk, |rk|)
  {
    for i := 0 to |rk|
      invariant x[..i + 4] == Trace(mix, old(x[..4]), rk, i)
    {
      x[i + 4] := mix(x[i], x[i + 1], x[i + 2], x[i + 3], rk[i]);
      assert x[..i + 5] == x[..i + 4] + [x[i + 4]];
    }
    assert x[..] == x[..|rk| + 4];
  }

  /** The same loop of the decryption, keys last to first. */
  method RoundsBackwards<W>(mix: Mix<W>, x: array<W>, rk: seq<W>)
    requires x.Length == |rk| + 4
    modifies x
    ensures x[..] == Trace(mix, old(x[..4]), Reversed(rk), |rk|)
  {
    for i := 0 to |rk|
      invariant x[..i + 4] == Trace(mix, old(x[..4]), Reversed(rk), i)
    {
      x[i + 4] := mix(x[i], x[i + 1], x[i + 2], x[i + 3], rk[|rk| - 1 - i]);
      assert x[..i + 5] == x[..i + 4] + [x[i + 4]];
    }
    assert x[..] == x[..|rk| + 4];
  }
}
