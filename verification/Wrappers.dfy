/** Failure-carrying values shared by every module of the model. */
module Wrappers {
  datatype Option<+T> = None | Some(value: T)

  datatype Result<+T, +E> = Ok(value: T) | Err(error: E)
}

/** Facts about sequences that are cheaper to name than to rediscover in every proof. */
module Sequences {
  ghost predicate Distinct<T>(s: seq<T>) {
    forall i, j :: 0 <= i < j < |s| ==> s[i] != s[j]
  }

  function Elements<T>(s: seq<T>): set<T> {
    set x | x in s
  }

  lemma Associate<T>(a: seq<T>, b: seq<T>, c: seq<T>)
    ensures (a + b) + c == a + (b + c)
  {}

  /** Moving the head of `b` to the end of `a`. */
  lemma Shift<T>(a: seq<T>, b: seq<T>)
    requires b != []
    ensures (a + [b[0]]) + b[1..] == a + b
  {}

  lemma SliceSnoc<T>(s: seq<T>, lo: nat, hi: nat)
    requires lo < hi <= |s|
    ensures s[lo..hi] == s[lo..hi - 1] + [s[hi - 1]]
    ensures s[lo..hi][..|s[lo..hi]| - 1] == s[lo..hi - 1] && s[lo..hi][|s[lo..hi]| - 1] == s[hi - 1]
  {}

  lemma DropLast<T>(a: seq<T>, x: T)
    ensures (a + [x])[..|a + [x]| - 1] == a && (a + [x])[|a|] == x
  {}

  /** Counting positions one position further. */
  lemma OneMorePosition<T>(before: set<T>, now: set<T>, n: T, more: bool)
    requires n !in before && forall i :: i in now <==> i in before || (more && i == n)
    ensures |now| == |before| + if more then 1 else 0
  {
    if more {
      assert now == before + {n};
    } else {
      assert now == before;
    }
  }
}

/** Rounding and fractions of real numbers. */
module Reals {
  function Ceiling(x: real): int {
    -((-x).Floor)
  }

  lemma FractionOf(x: real, f: real)
    requires x >= 0.0 && 0.0 <= f <= 1.0
    ensures 0.0 <= x * f <= x
    ensures x > 0.0 && f < 1.0 ==> x * f < x
  {}
}
