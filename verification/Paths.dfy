/** Dotted names: a string and the list of parts between its dots. */
module Paths {
  const DOT: string := "."

  function Split(s: string): (parts: seq<string>)
    ensures |parts| >= 1
  {
    if s == "" then [""]
    else
      var rest := Split(s[1..]);
      if s[0] == '.' then [""] + rest else [[s[0]] + rest[0]] + rest[1..]
  }

  function Join(parts: seq<string>): string {
    if parts == [] then ""
    else if |parts| == 1 then parts[0]
    else parts[0] + DOT + Join(parts[1..])
  }

  predicate Dotless(s: string) { forall i :: 0 <= i < |s| ==> s[i] != '.' }

  predicate AllDotless(parts: seq<string>) { forall i :: 0 <= i < |parts| ==> Dotless(parts[i]) }

  /** Splitting is inverted by joining, and yields parts without dots. */
  lemma {:induction false} JoinSplit(s: string)
    ensures Join(Split(s)) == s && AllDotless(Split(s))
  {
    if s != "" {
      var rest := Split(s[1..]);
      JoinSplit(s[1..]);
      if s[0] == '.' {
        assert ([""] + rest)[1..] == rest;
      } else {
        var parts := [[s[0]] + rest[0]] + rest[1..];
        assert parts[1..] == rest[1..];
        if |rest| == 1 {
          assert Join(parts) == [s[0]] + rest[0];
        } else {
          assert Join(parts) == [s[0]] + Join(rest);
        }
      }
    }
  }

  lemma {:induction false} SplitDotless(k: string)
    requires Dotless(k)
    ensures Split(k) == [k]
  {
    if k != "" {
      SplitDotless(k[1..]);
      assert [k[0]] + k[1..] == k;
    }
  }

  lemma {:induction false} SplitCons(k: string, rest: string)
    requires Dotless(k)
    ensures Split(k + DOT + rest) == [k] + Split(rest)
  {
    if k == "" {
      assert (k + DOT + rest)[1..] == rest;
    } else {
      assert (k + DOT + rest)[1..] == k[1..] + DOT + rest;
      SplitCons(k[1..], rest);
      assert [k[0]] + k[1..] == k;
      assert Split(k[1..] + DOT + rest)[1..] == Split(rest);
    }
  }

  /** A name splits into a first part and the rest exactly as its first dot says. */
  lemma SplitHead(s: string)
    ensures var parts := Split(s);
            && (|parts| == 1 ==> parts[0] == s && Dotless(s))
            && (|parts| > 1 ==> s == parts[0] + DOT + Join(parts[1..]) && Split(Join(parts[1..])) == parts[1..])
  {
    JoinSplit(s);
    var parts := Split(s);
    if |parts| > 1 {
      var rest := Join(parts[1..]);
      assert Dotless(parts[0]);
      SplitCons(parts[0], rest);
      assert s == parts[0] + DOT + rest;
      assert ([parts[0]] + Split(rest))[1..] == Split(rest);
    }
  }

  predicate Under(a: string, b: string) { a + DOT <= b }

  lemma {:induction false} SplitAppend(a: string, rest: string)
    ensures Split(a + DOT + rest) == Split(a) + Split(rest)
  {
    if a == "" {
      assert (a + DOT + rest)[1..] == rest;
    } else {
      assert (a + DOT + rest)[1..] == a[1..] + DOT + rest;
      SplitAppend(a[1..], rest);
    }
  }

  lemma {:induction false} JoinAppend(a: seq<string>, b: seq<string>)
    requires a != [] && b != []
    ensures Join(a + b) == Join(a) + DOT + Join(b)
  {
    if |a| == 1 {
      assert (a + b)[1..] == b;
    } else {
      assert (a + b)[1..] == a[1..] + b;
      JoinAppend(a[1..], b);
    }
  }

  /** One name lies under another exactly when its parts properly extend the other's. */
  lemma UnderIffPartsExtend(a: string, b: string)
    ensures Under(a, b) <==> Split(a) < Split(b)
  {
    if Under(a, b) {
      var rest := b[|a| + 1..];
      assert b == a + DOT + rest;
      SplitAppend(a, rest);
    }
    if Split(a) < Split(b) {
      JoinSplit(a);
      JoinSplit(b);
      var more := Split(b)[|Split(a)|..];
      assert Split(b) == Split(a) + more;
      JoinAppend(Split(a), more);
    }
  }

  lemma SplitIsInjective(a: string, b: string)
    requires Split(a) == Split(b)
    ensures a == b
  {
    JoinSplit(a);
    JoinSplit(b);
  }
}
