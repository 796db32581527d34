/** Suffixes of sequences: what a bounded history keeps. */
module Sequences {

  /** The last `n` elements, or all of them. */
  function LastN<T>(s: seq<T>, n: nat): seq<T> {
    if |s| > n then s[|s| - n..] else s
  }

  /** A suffix window is updated by pushing and, when it was full, forgetting its first entry. */
  lemma {:induction false} LastNPush<T>(s: seq<T>, n: nat, x: T)
    requires n > 0
    ensures LastN(s + [x], n) == if |LastN(s, n)| < n then LastN(s, n) + [x] else LastN(s, n)[1..] + [x]
  {
  }

  lemma {:induction false} LastNConcat<T>(a: seq<T>, b: seq<T>, c: seq<T>, n: nat)
    ensures LastN(b, n) == LastN(LastN(a + b, |b|), n)
    ensures LastN(b, n) + c == LastN(a + b + c, |LastN(b, n)| + |c|)
  {
    hide LastN;
    LastNSuffix(a, b);
    LastNSplit(b, n);
    var kept := LastN(b, n);
    var lost := b[..|b| - |kept|];
    Regroup(a, lost, kept, c);
    LastNSuffix(a + lost, kept + c);
  }

  lemma {:induction false} LastNSplit<T>(s: seq<T>, n: nat)
    ensures |LastN(s, n)| <= |s| && s == s[..|s| - |LastN(s, n)|] + LastN(s, n)
  {
  }

  lemma {:induction false} Regroup<T>(a: seq<T>, b: seq<T>, c: seq<T>, d: seq<T>)
    ensures a + (b + c) + d == (a + b) + (c + d)
  {
  }

  lemma {:induction false} LastNSuffix<T>(a: seq<T>, b: seq<T>)
    ensures LastN(a + b, |b|) == b
  {
  }

  lemma {:induction false} SuffixOfSuffix<T>(s: seq<T>, n: nat, k: nat)
    requires k <= |LastN(s, n)|
    ensures LastN(s, n)[k..] == LastN(s, |LastN(s, n)| - k)
  {
  }
}
