/**
 * The ascending order of display names that the conversation list uses:
 * strings compared character by character, a proper prefix first.
 */
module StringOrder {

  /** `a` sorts strictly before `b`. */
  predicate Less(a: string, b: string)
  {
    if a == [] then b != []
    else if b == [] then false
    else a[0] < b[0] || (a[0] == b[0] && Less(a[1..], b[1..]))
  }

  lemma {:induction false} LessIrreflexive(a: string)
    ensures !Less(a, a)
  {
    if a != [] {
      LessIrreflexive(a[1..]);
    }
  }

  lemma {:induction false} LessTransitive(a: string, b: string, c: string)
    requires Less(a, b) && Less(b, c)
    ensures Less(a, c)
  {
    if a != [] && b != [] && c != [] && a[0] == b[0] == c[0] {
      LessTransitive(a[1..], b[1..], c[1..]);
    }
  }

  /** Any two different names are ordered one way or the other. */
  lemma {:induction false} LessTotal(a: string, b: string)
    requires a != b
    ensures Less(a, b) || Less(b, a)
  {
    if a != [] && b != [] && a[0] == b[0] {
      assert a == [a[0]] + a[1..] && b == [b[0]] + b[1..];
      LessTotal(a[1..], b[1..]);
    }
  }

  predicate IsLeast(m: string, s: set<string>)
  {
    m in s && forall x :: x in s && x != m ==> Less(m, x)
  }

  /** Every non-empty finite set of names has a least element. */
  lemma {:induction false} LeastExists(s: set<string>)
    requires s != {}
    ensures exists m :: IsLeast(m, s)
    decreases |s|
  {
    var x :| x in s;
    var rest := s - {x};
    if rest == {} {
      assert s == {x};
      assert IsLeast(x, s);
    } else {
      LeastExists(rest);
      var m :| IsLeast(m, rest);
      if Less(x, m) {
        forall y | y in s && y != x
          ensures Less(x, y)
        {
          if y != m { LessTransitive(x, m, y); }
        }
        assert IsLeast(x, s);
      } else {
        if x != m { LessTotal(x, m); }
        assert IsLeast(m, s);
      }
    }
  }

  /** A set has at most one least element, so `Least` is a function of the set. */
  lemma LeastUnique(s: set<string>)
    ensures forall m1, m2 :: IsLeast(m1, s) && IsLeast(m2, s) ==> m1 == m2
  {
    forall m1, m2 | IsLeast(m1, s) && IsLeast(m2, s)
      ensures m1 == m2
    {
      if m1 != m2 {
        LessTransitive(m1, m2, m1);
        LessIrreflexive(m1);
      }
    }
  }

  function Least(s: set<string>): (m: string)
    requires s != {}
    ensures IsLeast(m, s)
  {
    LeastExists(s);
    LeastUnique(s);
    var m :| IsLeast(m, s); m
  }

  predicate StrictlyAscending(r: seq<string>)
  {
    forall i, j :: 0 <= i < j < |r| ==> Less(r[i], r[j])
  }

  /**
   * The names of `s` in ascending order, each once: what `sorted()` returns
   * for the keys of a dictionary.
   */
  function Sorted(s: set<string>): (r: seq<string>)
    ensures |r| == |s|
    ensures forall x :: x in r <==> x in s
    ensures StrictlyAscending(r)
    decreases |s|
  {
    if s == {} then []
    else
      var m := Least(s);
      var tail := Sorted(s - {m});
      forall j | 0 <= j < |tail|
        ensures Less(m, tail[j])
      {
        assert tail[j] in s - {m};
      }
      [m] + tail
  }
}
