/** The iteration order of a `std::map<std::string, …>`: keys ascending under
    `std::less<std::string>`, i.e. lexicographic comparison of characters with
    a proper prefix ordered first. Characters are compared by code point,
    which for UTF-8 text is the same order as the unsigned-byte comparison
    `std::string::compare` performs. */
module OrderedKeys {

  /** `std::string` operator< */
  predicate LexLess(a: string, b: string)
    decreases |a|
  {
    if |a| == 0 then |b| > 0
    else if |b| == 0 then false
    else if a[0] != b[0] then a[0] < b[0]
    else LexLess(a[1..], b[1..])
  }

  lemma {:induction false} LexLessIrreflexive(a: string)
    ensures !LexLess(a, a)
    decreases |a|
  {
    if |a| > 0 {
      LexLessIrreflexive(a[1..]);
    }
  }

  lemma {:induction false} LexLessTransitive(a: string, b: string, c: string)
    requires LexLess(a, b) && LexLess(b, c)
    ensures LexLess(a, c)
    decreases |a|
  {
    if |a| > 0 && |b| > 0 && |c| > 0 && a[0] == b[0] && b[0] == c[0] {
      LexLessTransitive(a[1..], b[1..], c[1..]);
    }
  }

  /** Any two distinct strings are ordered one way or the other. */
  lemma {:induction false} LexLessTotal(a: string, b: string)
    requires a != b
    ensures LexLess(a, b) || LexLess(b, a)
    decreases |a|
  {
    if |a| > 0 && |b| > 0 && a[0] == b[0] {
      assert a == [a[0]] + a[1..] && b == [b[0]] + b[1..];
      LexLessTotal(a[1..], b[1..]);
    }
  }

  lemma {:induction false} LexLessAsymmetric(a: string, b: string)
    requires LexLess(a, b)
    ensures !LexLess(b, a)
  {
    if LexLess(b, a) {
      LexLessTransitive(a, b, a);
      LexLessIrreflexive(a);
    }
  }

  /** k comes before every other element of s. */
  predicate IsLeast(k: string, s: set<string>) {
    k in s && forall x :: x in s && x != k ==> LexLess(k, x)
  }

  lemma {:induction false} LeastExists(s: set<string>)
    requires s != {}
    ensures exists k :: IsLeast(k, s)
    decreases |s|
  {
    var y :| y in s;
    var rest := s - {y};
    if rest == {} {
      assert s == {y};
      assert IsLeast(y, s);
    } else {
      LeastExists(rest);
      var k :| IsLeast(k, rest);
      if LexLess(k, y) {
        assert IsLeast(k, s);
      } else {
        LexLessTotal(k, y);
        forall x | x in s && x != y
          ensures LexLess(y, x)
        {
          if x != k {
            LexLessTransitive(y, k, x);
          }
        }
        assert IsLeast(y, s);
      }
    }
  }

  lemma LeastUnique(s: set<string>, a: string, b: string)
    requires IsLeast(a, s) && IsLeast(b, s)
    ensures a == b
  {
    if a != b {
      LexLessAsymmetric(a, b);
    }
  }

  predicate StrictlyIncreasing(keys: seq<string>) {
    forall i, j :: 0 <= i < j < |keys| ==> LexLess(keys[i], keys[j])
  }

  /** The keys of a `std::map` in the order its iterators visit them: every
      key exactly once, ascending. */
  function SortedKeys(s: set<string>): (keys: seq<string>)
    ensures |keys| == |s|
    ensures forall k :: k in keys <==> k in s
    ensures StrictlyIncreasing(keys)
    decreases |s|
  {
    if s == {} then []
    else
      LeastExists(s);
      var k :| IsLeast(k, s);
      assert forall k' | IsLeast(k', s) :: k' == k by {
        forall k' | IsLeast(k', s) ensures k' == k {
          LeastUnique(s, k, k');
        }
      }
      var rest := SortedKeys(s - {k});
      assert forall j :: 0 <= j < |rest| ==> LexLess(k, rest[j]) by {
        forall j | 0 <= j < |rest| ensures LexLess(k, rest[j]) {
          assert rest[j] in rest;
        }
      }
      [k] + rest
  }

  /** Distinct positions hold distinct keys. */
  lemma StrictlyIncreasingDistinct(keys: seq<string>, i: int, j: int)
    requires StrictlyIncreasing(keys)
    requires 0 <= i < |keys| && 0 <= j < |keys| && i != j
    ensures keys[i] != keys[j]
  {
    if i < j {
      LexLessIrreflexive(keys[i]);
    } else {
      LexLessIrreflexive(keys[j]);
    }
  }

  /** A strictly increasing sequence is determined by its elements: the
      iteration order of a `std::map` depends on nothing but its keys. */
  lemma {:induction false} StrictlyIncreasingUnique(a: seq<string>, b: seq<string>)
    requires StrictlyIncreasing(a) && StrictlyIncreasing(b)
    requires forall k :: k in a <==> k in b
    ensures a == b
    decreases |a|
  {
    if |a| > 0 {
      assert a[0] in a;
      assert |b| > 0;
      assert b[0] in b;
      var i :| 0 <= i < |a| && a[i] == b[0];
      var j :| 0 <= j < |b| && b[j] == a[0];
      if i > 0 && j > 0 {
        LexLessAsymmetric(a[0], a[i]);
      }
      if i == 0 {
        assert a[0] == b[0];
      } else {
        assert b[0] == a[0];
      }
      forall k
        ensures k in a[1..] <==> k in b[1..]
      {
        if k in a[1..] {
          var p :| 0 <= p < |a[1..]| && a[1..][p] == k;
          StrictlyIncreasingDistinct(a, 0, p + 1);
          assert a[p + 1] == k && k in a && k in b;
          var q :| 0 <= q < |b| && b[q] == k;
          assert q != 0;
          assert b[1..][q - 1] == k;
        }
        if k in b[1..] {
          var p :| 0 <= p < |b[1..]| && b[1..][p] == k;
          StrictlyIncreasingDistinct(b, 0, p + 1);
          assert b[p + 1] == k && k in b && k in a;
          var q :| 0 <= q < |a| && a[q] == k;
          assert q != 0;
          assert a[1..][q - 1] == k;
        }
      }
      StrictlyIncreasingUnique(a[1..], b[1..]);
      assert a == [a[0]] + a[1..] && b == [b[0]] + b[1..];
    }
  }

  function Below(s: set<string>, x: string): set<string> {
    set k | k in s && LexLess(k, x)
  }

  function Above(s: set<string>, x: string): set<string> {
    set k | k in s && LexLess(x, k)
  }

  lemma JoinedIncreasing(lo: seq<string>, x: string, hi: seq<string>)
    requires StrictlyIncreasing(lo) && StrictlyIncreasing(hi)
    requires forall k :: k in lo ==> LexLess(k, x)
    requires forall k :: k in hi ==> LexLess(x, k)
    ensures StrictlyIncreasing(lo + [x] + hi)
  {
    var joined := lo + [x] + hi;
    forall i, j | 0 <= i < j < |joined|
      ensures LexLess(joined[i], joined[j])
    {
      if j < |lo| {
        assert joined[i] == lo[i] && joined[j] == lo[j];
      } else if i < |lo| && j == |lo| {
        assert lo[i] in lo;
      } else if i < |lo| {
        assert lo[i] in lo && hi[j - |lo| - 1] in hi;
        LexLessTransitive(lo[i], x, hi[j - |lo| - 1]);
      } else if i == |lo| {
        assert hi[j - |lo| - 1] in hi;
      } else {
        assert joined[i] == hi[i - |lo| - 1] && joined[j] == hi[j - |lo| - 1];
      }
    }
  }

  /** Visiting the keys of a map in order meets the keys below `x`, then
      `x`, then the keys above it. */
  lemma SortedKeysSplit(s: set<string>, x: string)
    requires x in s
    ensures SortedKeys(s) == SortedKeys(Below(s, x)) + [x] + SortedKeys(Above(s, x))
  {
    var lo, hi := SortedKeys(Below(s, x)), SortedKeys(Above(s, x));
    JoinedIncreasing(lo, x, hi);
    var joined := lo + [x] + hi;
    forall k
      ensures k in joined <==> k in SortedKeys(s)
    {
      if k in s && k != x {
        LexLessTotal(k, x);
      }
      LexLessIrreflexive(x);
    }
    StrictlyIncreasingUnique(SortedKeys(s), joined);
  }
}
