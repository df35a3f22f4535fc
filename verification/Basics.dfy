/** Options, subsequences and duplicate-free sequences, shared by the other modules. */
module Basics {

  datatype Option<+T> = None | Some(value: T)

  /** Value semantics of Go's `int32(n)` conversion: two's complement wrap-around. */
  function ToInt32(n: int): int {
    (n + 0x8000_0000) % 0x1_0000_0000 - 0x8000_0000
  }

  /** The one number of 32 bits that differs by a multiple of 2^32. */
  lemma ToInt32Wraps(n: int)
    ensures -0x8000_0000 <= ToInt32(n) < 0x8000_0000
    ensures (n - ToInt32(n)) % 0x1_0000_0000 == 0
    ensures -0x8000_0000 <= n < 0x8000_0000 ==> ToInt32(n) == n
  {
  }

  /** A null byte within the first `n`. */
  predicate HasNull(text: string, n: nat) {
    exists i :: 0 <= i < |text| && i < n && text[i] == '\0'
  }

  /** Go's map iteration picks the next key arbitrarily. */
  method NextKey<T(==)>(keys: set<T>) returns (key: T)
    requires keys != {}
    ensures key in keys
  {
    key :| key in keys;
  }

  predicate Distinct<T(==)>(s: seq<T>) {
    forall i, j :: 0 <= i < j < |s| ==> s[i] != s[j]
  }

  /** `a` is obtained from `b` by deleting elements. The recursion peels both ends off the back,
      because histories grow by appending. */
  predicate Subseq<T(==)>(a: seq<T>, b: seq<T>)
    decreases |b|
  {
    if a == [] then true
    else if b == [] then false
    else
      || (a[|a| - 1] == b[|b| - 1] && Subseq(a[..|a| - 1], b[..|b| - 1]))
      || Subseq(a, b[..|b| - 1])
  }

  lemma SubseqAppendBoth<T>(a: seq<T>, b: seq<T>, x: T)
    requires Subseq(a, b)
    ensures Subseq(a + [x], b + [x])
  {
    assert (a + [x])[..|a|] == a && (b + [x])[..|b|] == b;
  }

  lemma SubseqAppendRight<T>(a: seq<T>, b: seq<T>, x: T)
    requires Subseq(a, b)
    ensures Subseq(a, b + [x])
  {
    assert (b + [x])[..|b|] == b;
  }

  lemma {:induction false} SubseqRefl<T>(a: seq<T>)
    ensures Subseq(a, a)
  {
    if a != [] {
      SubseqRefl(a[..|a| - 1]);
    }
  }

  lemma {:induction false} SubseqLength<T>(a: seq<T>, b: seq<T>)
    requires Subseq(a, b)
    ensures |a| <= |b|
    decreases |b|
  {
    if a != [] {
      if a[|a| - 1] == b[|b| - 1] && Subseq(a[..|a| - 1], b[..|b| - 1]) {
        SubseqLength(a[..|a| - 1], b[..|b| - 1]);
      } else {
        SubseqLength(a, b[..|b| - 1]);
      }
    }
  }

  /** A subsequence that lost nothing is the whole sequence. */
  lemma {:induction false} SubseqSameLength<T>(a: seq<T>, b: seq<T>)
    requires Subseq(a, b) && |a| == |b|
    ensures a == b
    decreases |b|
  {
    if a != [] {
      if Subseq(a, b[..|b| - 1]) {
        SubseqLength(a, b[..|b| - 1]);
      } else {
        SubseqSameLength(a[..|a| - 1], b[..|b| - 1]);
        assert a == a[..|a| - 1] + [a[|a| - 1]];
        assert b == b[..|b| - 1] + [b[|b| - 1]];
      }
    }
  }

  lemma {:induction false} SubseqTrans<T>(a: seq<T>, b: seq<T>, c: seq<T>)
    requires Subseq(a, b) && Subseq(b, c)
    ensures Subseq(a, c)
    decreases |c|
  {
    if a != [] && b != [] {
      if Subseq(b, c[..|c| - 1]) {
        SubseqTrans(a, b, c[..|c| - 1]);
      } else if Subseq(a, b[..|b| - 1]) {
        SubseqTrans(a, b[..|b| - 1], c[..|c| - 1]);
      } else {
        SubseqTrans(a[..|a| - 1], b[..|b| - 1], c[..|c| - 1]);
      }
    }
  }

  /** Dropping a prefix of the larger sequence only makes it harder to be a subsequence. */
  lemma {:induction false} SubseqDropRight<T>(a: seq<T>, b: seq<T>, n: nat)
    requires n <= |b| && Subseq(a, b[n..])
    ensures Subseq(a, b)
    decreases |b|
  {
    if a != [] {
      var t := b[n..];
      assert t[..|t| - 1] == b[..|b| - 1][n..];
      if a[|a| - 1] == t[|t| - 1] && Subseq(a[..|a| - 1], t[..|t| - 1]) {
        SubseqDropRight(a[..|a| - 1], b[..|b| - 1], n);
      } else {
        SubseqDropRight(a, b[..|b| - 1], n);
      }
    }
  }

  /** A prefix is a subsequence. */
  lemma {:induction false} SubseqPrefix<T>(a: seq<T>, b: seq<T>)
    ensures Subseq(a, a + b)
    decreases |b|
  {
    if b == [] {
      assert a + b == a;
      SubseqRefl(a);
    } else {
      SubseqPrefix(a, b[..|b| - 1]);
      SubseqAppendRight(a, a + b[..|b| - 1], b[|b| - 1]);
      assert a + b[..|b| - 1] + [b[|b| - 1]] == a + b;
    }
  }

  // ---- sequences taken apart where they were put together ----

  lemma TakeDrop<T>(a: seq<T>, b: seq<T>)
    ensures (a + b)[..|a|] == a && (a + b)[|a|..] == b
  {
  }

  lemma DropOne<T>(a: seq<T>, b: seq<T>)
    requires a != []
    ensures (a + b)[0] == a[0] && (a + b)[1..] == a[1..] + b
  {
  }

  lemma Assoc<T>(a: seq<T>, b: seq<T>, c: seq<T>)
    ensures a + b + c == a + (b + c)
  {
  }

  lemma FrontLast<T>(s: seq<T>)
    requires s != []
    ensures s[..|s| - 1] + [s[|s| - 1]] == s
  {
  }

  lemma SplitAt<T>(s: seq<T>, i: nat)
    requires i < |s|
    ensures s[..i] + [s[i]] + s[i + 1..] == s
  {
  }

  lemma ThreeParts<T>(s: seq<T>, from: nat, to: nat)
    requires from <= to <= |s|
    ensures s[..from] + s[from..to] + s[to..] == s
  {
  }

  lemma SliceOfPrefix<T>(a: seq<T>, b: seq<T>, from: nat, to: nat)
    requires a <= b && from <= to <= |a|
    ensures a[from..to] == b[from..to]
  {
  }
}
