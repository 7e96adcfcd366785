/**
 * The order in which the C++ standard containers keyed by strings (std::set<std::string>,
 * std::map<std::string, _>, and StorePathSet, whose elements compare by their base-name
 * string) hold and visit their elements: lexicographic by character, shortest prefix first.
 */
module Ordered {

  /** `a < b` for std::string: lexicographic comparison. */
  predicate Less(a: string, b: string)
  {
    |b| > 0 && (|a| == 0 || a[0] < b[0] || (a[0] == b[0] && Less(a[1..], b[1..])))
  }

  lemma {:induction false} LessIrreflexive(a: string)
    ensures !Less(a, a)
  {
    if |a| > 0 {
      LessIrreflexive(a[1..]);
    }
  }

  lemma {:induction false} LessTransitive(a: string, b: string, c: string)
    requires Less(a, b) && Less(b, c)
    ensures Less(a, c)
  {
    if |a| > 0 && a[0] == b[0] && b[0] == c[0] {
      LessTransitive(a[1..], b[1..], c[1..]);
    }
  }

  lemma {:induction false} LessTotal(a: string, b: string)
    ensures a == b || Less(a, b) || Less(b, a)
  {
    if |a| > 0 && |b| > 0 && a[0] == b[0] {
      LessTotal(a[1..], b[1..]);
      assert a == [a[0]] + a[1..] && b == [b[0]] + b[1..];
    }
  }

  lemma LessAsymmetric()
    ensures forall a, b :: Less(a, b) ==> !Less(b, a)
  {
    forall a, b | Less(a, b)
      ensures !Less(b, a)
    {
      if Less(b, a) {
        LessTransitive(a, b, a);
        LessIrreflexive(a);
      }
    }
  }

  /** Strictly increasing: the elements of a std::set in iteration order. */
  predicate Sorted(s: seq<string>)
  {
    forall i, j :: 0 <= i < j < |s| ==> Less(s[i], s[j])
  }

  predicate IsLeast(m: string, s: set<string>)
  {
    m in s && forall x :: x in s && x != m ==> Less(m, x)
  }

  lemma {:induction false} LeastExists(s: set<string>)
    requires s != {}
    ensures exists m :: IsLeast(m, s)
    decreases |s|
  {
    var y :| y in s;
    if s != {y} {
      LeastExists(s - {y});
      var m :| IsLeast(m, s - {y});
      LessTotal(y, m);
      if Less(y, m) {
        forall x | x in s && x != y
          ensures Less(y, x)
        {
          if x != m {
            LessTransitive(y, m, x);
          }
        }
        assert IsLeast(y, s);
      } else {
        assert IsLeast(m, s);
      }
    }
  }

  /** The first element of a non-empty std::set: `*s.begin()` (LeastIsLeast). */
  function Least(s: set<string>): (m: string)
    requires s != {}
    ensures m in s
  {
    LessAsymmetric();
    LeastExists(s);
    var m :| IsLeast(m, s);
    m
  }

  lemma LeastIsLeast(s: set<string>)
    requires s != {}
    ensures forall x :: x in s && x != Least(s) ==> Less(Least(s), x)
  {
    assert IsLeast(Least(s), s);
  }

  /** The elements of a std::set, in the order a range-for visits them (SortedElementsSorted). */
  function SortedElements(s: set<string>): (r: seq<string>)
    ensures |r| == |s|
    ensures forall x :: x in r <==> x in s
    decreases |s|
  {
    if s == {} then []
    else
      var m := Least(s);
      [m] + SortedElements(s - {m})
  }

  lemma {:induction false} SortedElementsSorted(s: set<string>)
    ensures Sorted(SortedElements(s))
    decreases |s|
  {
    if s != {} {
      var m := Least(s);
      LeastIsLeast(s);
      var rest := SortedElements(s - {m});
      SortedElementsSorted(s - {m});
      forall j | 0 <= j < |rest|
        ensures Less(m, rest[j])
      {
        assert rest[j] in s - {m};
      }
      assert SortedElements(s) == [m] + rest;
    }
  }

  /** Visiting a set in order, the first element found in `bad` is the least of `bad`:
      when every element of `bad` is still to be visited, and the next one is in `bad`. */
  lemma LeastOfSubset(bad: set<string>, remaining: set<string>)
    requires bad <= remaining && remaining != {} && Least(remaining) in bad
    ensures Least(bad) == Least(remaining)
  {
    LeastIsLeast(bad);
    LeastIsLeast(remaining);
    LessAsymmetric();
  }
}
