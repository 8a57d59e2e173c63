/**
 * Power series: one real value per simulation instant, held as a sequence in
 * timestamp order. Series that share an index are sequences of equal length,
 * and pandas' index-aligned arithmetic becomes elementwise arithmetic.
 */
module TimeSeries {

  /** A simulation instant, reduced to what the models read of it: the wall-clock hour and minute. */
  datatype Timestamp = Timestamp(hour: int, minute: int)

  /** Fractional hour of the day, `hour + minute / 60`. */
  function HourOfDay(t: Timestamp): real {
    t.hour as real + t.minute as real / 60.0
  }

  /** The series holding `c` at each of `n` instants. */
  function Constant(n: nat, c: real): seq<real> {
    seq(n, _ => c)
  }

  /** Elementwise sum of two aligned series. */
  function Add(a: seq<real>, b: seq<real>): seq<real>
    requires |a| == |b|
  {
    seq(|a|, i requires 0 <= i < |a| => a[i] + b[i])
  }

  /** Elementwise difference of two aligned series. */
  function Sub(a: seq<real>, b: seq<real>): seq<real>
    requires |a| == |b|
  {
    seq(|a|, i requires 0 <= i < |a| => a[i] - b[i])
  }

  /** The sum of all entries (`Series.sum()`, which is 0 for an empty series). */
  function Sum(s: seq<real>): real {
    if s == [] then 0.0 else s[0] + Sum(s[1..])
  }

  /** The largest entry (`Series.max()`). */
  function Max(s: seq<real>): (m: real)
    requires |s| > 0
    ensures m in s
    ensures forall i :: 0 <= i < |s| ==> s[i] <= m
  {
    if |s| == 1 then s[0]
    else
      var rest := Max(s[1..]);
      if s[0] >= rest then s[0] else rest
  }

  lemma {:induction false} SumAppend(a: seq<real>, b: seq<real>)
    ensures Sum(a + b) == Sum(a) + Sum(b)
  {
    if a == [] {
      assert a + b == b;
    } else {
      assert (a + b)[1..] == a[1..] + b;
      SumAppend(a[1..], b);
    }
  }

  lemma SumCons(x: real, s: seq<real>)
    ensures Sum([x] + s) == x + Sum(s)
  {
    assert ([x] + s)[1..] == s;
  }

  /** Summing a prefix one entry longer adds that entry. */
  lemma SumPrefix(s: seq<real>, k: nat)
    requires k < |s|
    ensures Sum(s[..k + 1]) == Sum(s[..k]) + s[k]
  {
    assert s[..k + 1] == s[..k] + [s[k]];
    SumAppend(s[..k], [s[k]]);
  }

  /** The last entry of `s`, or `initial` when `s` is empty. */
  function Last(initial: real, s: seq<real>): real {
    if s == [] then initial else s[|s| - 1]
  }

  /**
   * A running total: when each entry of `t` is the entry before it (`initial`
   * for the first) plus the matching entry of `e`, the last entry is
   * `initial` plus the sum of `e`.
   */
  lemma {:induction false} Telescope(initial: real, t: seq<real>, e: seq<real>)
    requires |t| == |e|
    requires |t| > 0 ==> t[0] == initial + e[0]
    requires forall i :: 0 < i < |t| ==> t[i] == t[i - 1] + e[i]
    ensures Last(initial, t) == initial + Sum(e)
    decreases |t|
  {
    if t != [] {
      assert Last(initial, t) == Last(t[0], t[1..]);
      assert forall i :: 0 < i < |t[1..]| ==> t[1..][i] == t[1..][i - 1] + e[1..][i];
      Telescope(t[0], t[1..], e[1..]);
    }
  }

  lemma {:induction false} SumNonnegative(s: seq<real>)
    requires forall i :: 0 <= i < |s| ==> s[i] >= 0.0
    ensures Sum(s) >= 0.0
  {
    if s != [] {
      assert forall i :: 0 <= i < |s[1..]| ==> s[1..][i] == s[i + 1];
      SumNonnegative(s[1..]);
    }
  }

  lemma {:induction false} SumConstant(n: nat, c: real)
    ensures Sum(Constant(n, c)) == n as real * c
  {
    if n > 0 {
      assert Constant(n, c)[1..] == Constant(n - 1, c);
      SumConstant(n - 1, c);
    }
  }
}
