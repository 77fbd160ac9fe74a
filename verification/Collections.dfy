/** What the other modules need of sets and sequences in general. */
module Collections {
  lemma SubsetSize<T>(a: set<T>, b: set<T>)
    requires a <= b
    ensures |a| <= |b|
  {
    if a != {} {
      var x :| x in a;
      SubsetSize(a - {x}, b - {x});
    }
  }

  /** The elements of a sequence that satisfy `p`, in order. */
  function Keep<T>(s: seq<T>, p: T -> bool): (kept: seq<T>)
    ensures |kept| <= |s|
  {
    if s == [] then []
    else var n := |s| - 1; Keep(s[..n], p) + (if p(s[n]) then [s[n]] else [])
  }

  lemma {:induction false} KeepIsExact<T>(s: seq<T>, p: T -> bool, x: T)
    ensures x in Keep(s, p) <==> x in s && p(x)
  {
    if s != [] {
      var n := |s| - 1;
      KeepIsExact(s[..n], p, x);
      assert s == s[..n] + [s[n]];
    }
  }

  /** The places in a sequence where `p` holds. */
  function Where<T>(s: seq<T>, p: T -> bool): set<int> { set i | 0 <= i < |s| && p(s[i]) }

  lemma {:induction false} KeepIsWhere<T>(s: seq<T>, p: T -> bool)
    ensures |Keep(s, p)| == |Where(s, p)|
  {
    if s != [] {
      var n := |s| - 1;
      KeepIsWhere(s[..n], p);
      assert Where(s, p) == Where(s[..n], p) + if p(s[n]) then {n} else {};
    }
  }

  /** Filtering twice is filtering by both. */
  lemma {:induction false} KeepTwice<T>(s: seq<T>, p: T -> bool, q: T -> bool, both: T -> bool)
    requires forall x | x in s :: both(x) <==> p(x) && q(x)
    ensures Keep(Keep(s, p), q) == Keep(s, both)
  {
    if s != [] {
      var n := |s| - 1;
      assert s == s[..n] + [s[n]] && s[n] in s;
      KeepTwice(s[..n], p, q, both);
      var kept := Keep(s[..n], p);
      assert (kept + [s[n]])[..|kept|] == kept;
      assert kept + [] == kept;
    }
  }

  lemma AppendAssoc<T>(a: seq<T>, b: seq<T>, x: T)
    ensures a + b + [x] == a + (b + [x])
  {
  }

  lemma MultisetAppend<T>(s: seq<T>, x: T)
    ensures multiset(s + [x]) == multiset(s) + multiset{x}
  {
  }

  lemma KeepStep<T>(s: seq<T>, p: T -> bool)
    requires s != []
    ensures var n := |s| - 1;
            && multiset(s) == multiset(s[..n]) + multiset{s[n]}
            && (p(s[n]) ==> multiset(Keep(s, p)) == multiset(Keep(s[..n], p)) + multiset{s[n]})
            && (!p(s[n]) ==> Keep(s, p) == Keep(s[..n], p))
  {
    var n := |s| - 1;
    var front, x, kept := s[..n], s[n], Keep(s[..n], p);
    assert s == front + [x];
    MultisetAppend(front, x);
    if p(x) {
      assert Keep(s, p) == kept + [x];
      MultisetAppend(kept, x);
    } else {
      assert Keep(s, p) == kept + [] == kept;
    }
  }

  /** Two opposite filters split a sequence. */
  lemma {:induction false} KeepSplits<T(!new)>(s: seq<T>, p: T -> bool, q: T -> bool)
    requires forall x :: p(x) <==> !q(x)
    ensures multiset(Keep(s, p)) + multiset(Keep(s, q)) == multiset(s)
    ensures |Keep(s, p)| + |Keep(s, q)| == |s|
  {
    if s != [] {
      KeepSplits(s[..|s| - 1], p, q);
      KeepStep(s, p);
      KeepStep(s, q);
    }
  }

  lemma {:induction false} KeepConcat<T>(a: seq<T>, b: seq<T>, p: T -> bool)
    ensures Keep(a + b, p) == Keep(a, p) + Keep(b, p)
  {
    if b == [] {
      assert a + b == a;
    } else {
      var n := |b| - 1;
      assert a + b == a + b[..n] + [b[n]];
      assert (a + b)[..|a + b| - 1] == a + b[..n];
      KeepConcat(a, b[..n], p);
    }
  }

  lemma {:induction false} KeepAll<T>(s: seq<T>, p: T -> bool)
    requires forall i :: 0 <= i < |s| ==> p(s[i])
    ensures Keep(s, p) == s
  {
    if s != [] {
      KeepAll(s[..|s| - 1], p);
      assert s == s[..|s| - 1] + [s[|s| - 1]];
    }
  }

  lemma {:induction false} KeepNone<T>(s: seq<T>, p: T -> bool)
    requires forall i :: 0 <= i < |s| ==> !p(s[i])
    ensures Keep(s, p) == []
  {
    if s != [] {
      KeepNone(s[..|s| - 1], p);
    }
  }

  /** A filter that refuses all before a cut and takes all after it. */
  lemma {:induction false} KeepCut<T>(s: seq<T>, k: nat, p: T -> bool)
    requires k <= |s| && forall i :: 0 <= i < |s| ==> (p(s[i]) <==> i >= k)
    ensures Keep(s, p) == s[k..]
  {
    if k == |s| {
      KeepNone(s, p);
    } else {
      var n := |s| - 1;
      KeepCut(s[..n], k, p);
      assert s[k..] == s[..n][k..] + [s[n]];
    }
  }

  lemma {:induction false} KeepCounts<T>(s: seq<T>, p: T -> bool, x: T)
    ensures multiset(Keep(s, p))[x] == if p(x) then multiset(s)[x] else 0
  {
    if s != [] {
      KeepCounts(s[..|s| - 1], p, x);
      KeepStep(s, p);
    }
  }

  function Reverse<T>(s: seq<T>): (r: seq<T>)
    ensures |r| == |s| && forall i :: 0 <= i < |s| ==> r[i] == s[|s| - 1 - i]
  {
    if s == [] then [] else [s[|s| - 1]] + Reverse(s[..|s| - 1])
  }

  lemma {:induction false} ReverseIsPermutation<T>(s: seq<T>)
    ensures multiset(Reverse(s)) == multiset(s)
  {
    if s != [] {
      ReverseIsPermutation(s[..|s| - 1]);
      assert s == s[..|s| - 1] + [s[|s| - 1]];
    }
  }

  lemma ReverseConcat<T>(a: seq<T>, b: seq<T>)
    ensures Reverse(a + b) == Reverse(b) + Reverse(a)
  {
  }
}
