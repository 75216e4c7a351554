/** Vocabulary shared by the queue, the histories and the serial monitor. */
module Sequences {
  datatype Option<+T> = None | Some(value: T)

  /** What a window of n elements keeps of s: its last n elements, or all of s when it is shorter. */
  function KeepLast<T>(s: seq<T>, n: nat): seq<T> {
    if |s| <= n then s else s[|s| - n..]
  }

  /** Truncating before appending loses nothing that the final truncation would have kept. */
  lemma KeepLastAbsorbs<T>(s: seq<T>, t: seq<T>, n: nat)
    ensures KeepLast(KeepLast(s, n) + t, n) == KeepLast(s + t, n)
  {
    if |s| > n {
      assert s + t == s[..|s| - n] + (s[|s| - n..] + t);
    }
  }

  /** The elements of s that satisfy p, in order. */
  function Filter<T>(s: seq<T>, p: T -> bool): seq<T> {
    if s == [] then [] else Filter(s[..|s| - 1], p) + (if p(s[|s| - 1]) then [s[|s| - 1]] else [])
  }

  lemma {:induction false} FilterConcat<T>(s: seq<T>, t: seq<T>, p: T -> bool)
    ensures Filter(s + t, p) == Filter(s, p) + Filter(t, p)
  {
    if t == [] {
      assert s + t == s;
    } else {
      FilterConcat(s, t[..|t| - 1], p);
      assert (s + t)[..|s + t| - 1] == s + t[..|t| - 1];
    }
  }

  /** How many elements of s satisfy p. */
  function Count<T>(s: seq<T>, p: T -> bool): nat {
    if s == [] then 0 else Count(s[..|s| - 1], p) + (if p(s[|s| - 1]) then 1 else 0)
  }

  lemma {:induction false} CountConcat<T>(s: seq<T>, t: seq<T>, p: T -> bool)
    ensures Count(s + t, p) == Count(s, p) + Count(t, p)
  {
    if t == [] {
      assert s + t == s;
    } else {
      CountConcat(s, t[..|t| - 1], p);
      assert (s + t)[..|s + t| - 1] == s + t[..|t| - 1];
    }
  }

  lemma {:induction false} CountAll<T>(s: seq<T>, p: T -> bool)
    requires forall i | 0 <= i < |s| :: p(s[i])
    ensures Count(s, p) == |s|
  {
    if s != [] {
      CountAll(s[..|s| - 1], p);
    }
  }

  lemma {:induction false} CountNone<T>(s: seq<T>, p: T -> bool)
    requires forall i | 0 <= i < |s| :: !p(s[i])
    ensures Count(s, p) == 0
  {
    if s != [] {
      CountNone(s[..|s| - 1], p);
    }
  }

  ghost predicate StrictlyIncreasing(s: seq<nat>) {
    forall i, j | 0 <= i < j < |s| :: s[i] < s[j]
  }

  /** A strictly increasing sequence whose elements are exactly lo, ..., hi - 1 lists them in order. */
  lemma {:induction false} IncreasingInterval(s: seq<nat>, lo: nat, hi: nat)
    requires StrictlyIncreasing(s) && lo <= hi && (lo == hi ==> s == [])
    requires forall i | 0 <= i < |s| :: lo <= s[i] < hi
    requires forall k | lo <= k < hi :: k in s
    ensures |s| == hi - lo
    ensures forall i | 0 <= i < |s| :: s[i] == lo + i
    decreases hi
  {
    if lo < hi {
      var last := |s| - 1;
      assert hi - 1 in s;
      assert s[last] == hi - 1;
      assert last > 0 ==> s[0] < s[last];
      forall k | lo <= k < hi - 1
        ensures k in s[..last]
      {
        assert k in s;
      }
      IncreasingInterval(s[..last], lo, hi - 1);
    }
  }

  lemma {:induction false} IncreasingFloor(s: seq<nat>, lo: nat, k: nat)
    requires StrictlyIncreasing(s) && k < |s| && lo <= s[0]
    ensures lo + k <= s[k]
  {
    if k > 0 {
      IncreasingFloor(s, lo, k - 1);
    }
  }

  lemma {:induction false} IncreasingCeiling(s: seq<nat>, hi: nat, k: nat)
    requires StrictlyIncreasing(s) && k < |s| && s[|s| - 1] < hi
    ensures s[k] <= hi - (|s| - k)
    decreases |s| - k
  {
    if k < |s| - 1 {
      IncreasingCeiling(s, hi, k + 1);
    }
  }

  /** A strictly increasing sequence between lo and hi is no longer than the interval, and fills it only in order. */
  lemma IncreasingFits(s: seq<nat>, lo: nat, hi: nat)
    requires StrictlyIncreasing(s) && lo <= hi
    requires forall i | 0 <= i < |s| :: lo <= s[i] < hi
    ensures |s| <= hi - lo
    ensures |s| == hi - lo ==> forall i | 0 <= i < |s| :: s[i] == lo + i
  {
    forall k | 0 <= k < |s|
      ensures lo + k <= s[k] <= hi - (|s| - k)
    {
      IncreasingFloor(s, lo, k);
      IncreasingCeiling(s, hi, k);
    }
    assert |s| > 0 ==> lo <= s[0] <= hi - |s|;
  }
}
