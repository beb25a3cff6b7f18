// Pigeonhole facts about sequences of small numbers.

module Counting {

  ghost predicate NoDup<T>(s: seq<T>) {
    forall i, j :: 0 <= i < j < |s| ==> s[i] != s[j]
  }

  ghost function Elements<T>(s: seq<T>): set<T> {
    set x | x in s
  }

  ghost predicate AllBelow(s: seq<int>, n: int) {
    forall i :: 0 <= i < |s| ==> 0 <= s[i] < n
  }

  ghost function Below(n: nat): (r: set<int>)
    ensures forall x :: x in r <==> 0 <= x < n
  {
    if n == 0 then {} else Below(n - 1) + {n - 1}
  }

  lemma {:induction false} BelowSize(n: nat)
    ensures |Below(n)| == n
    decreases n
  {
    if n > 0 {
      BelowSize(n - 1);
    }
  }

  lemma {:induction false} NoDupSize<T>(s: seq<T>)
    requires NoDup(s)
    ensures |Elements(s)| == |s|
    decreases |s|
  {
    if s == [] {
      assert Elements(s) == {};
    } else {
      var r := s[..|s| - 1];
      NoDupSize(r);
      assert s == r + [s[|s| - 1]];
      assert s[|s| - 1] !in r;
      assert Elements(s) == Elements(r) + {s[|s| - 1]};
    }
  }

  lemma {:induction false} ElementsAtMost<T>(s: seq<T>)
    ensures |Elements(s)| <= |s|
    decreases |s|
  {
    if s == [] {
      assert Elements(s) == {};
    } else {
      var r := s[..|s| - 1];
      ElementsAtMost(r);
      assert s == r + [s[|s| - 1]];
      assert Elements(s) == Elements(r) + {s[|s| - 1]};
    }
  }

  lemma SubsetSize<T>(a: set<T>, b: set<T>)
    requires a <= b
    ensures |a| <= |b|
    ensures |a| == |b| ==> a == b
  {
    assert b == a + (b - a);
    assert |b| == |a| + |b - a|;
    if |a| == |b| {
      assert |b - a| == 0;
    }
  }

  // A duplicate-free sequence of numbers below n has at most n entries.
  lemma NoDupBound(s: seq<int>, n: nat)
    requires NoDup(s) && AllBelow(s, n)
    ensures |s| <= n
  {
    NoDupSize(s);
    BelowSize(n);
    assert Elements(s) <= Below(n);
    SubsetSize(Elements(s), Below(n));
  }

  lemma {:induction false} DropRepeat<T>(s: seq<T>, i: int, j: int) returns (r: seq<T>)
    requires 0 <= i < |s| && 0 <= j < |s| && i != j && s[i] == s[j]
    ensures r == s[..i] + s[i + 1..] && Elements(r) == Elements(s)
  {
    r := s[..i] + s[i + 1..];
    forall x | x in s ensures x in r {
      var k :| 0 <= k < |s| && s[k] == x;
      var m := if k == i then j else k;
      assert s[m] == x && m != i;
      assert r[if m < i then m else m - 1] == x;
    }
    forall x | x in r ensures x in s {
    }
  }

  lemma FullRangeNoDup<T>(s: seq<T>)
    requires |Elements(s)| == |s|
    ensures NoDup(s)
  {
    forall i, j | 0 <= i < j < |s| ensures s[i] != s[j] {
      if s[i] == s[j] {
        var r := DropRepeat(s, i, j);
        ElementsAtMost(r);
        assert false;
      }
    }
  }

  // One value short of injective: at most one pair of positions shares a value.
  lemma OneShort<T>(s: seq<T>, a: int, b: int, c: int, d: int)
    requires |Elements(s)| == |s| - 1
    requires 0 <= a < |s| && 0 <= b < |s| && a != b && s[a] == s[b]
    requires 0 <= c < |s| && 0 <= d < |s| && c != d && s[c] == s[d]
    ensures {a, b} == {c, d}
  {
    if a != c && a != d {
      OneShortAway(s, a, b, c, d);
    } else if b != c && b != d {
      OneShortAway(s, b, a, c, d);
    }
  }

  lemma OneShortAway<T>(s: seq<T>, a: int, b: int, c: int, d: int)
    requires |Elements(s)| == |s| - 1
    requires 0 <= a < |s| && 0 <= b < |s| && a != b && s[a] == s[b]
    requires 0 <= c < |s| && 0 <= d < |s| && c != d && s[c] == s[d]
    ensures a == c || a == d
  {
    if a != c && a != d {
      var r := DropRepeat(s, a, b);
      var c' := if c < a then c else c - 1;
      var d' := if d < a then d else d - 1;
      assert r[c'] == r[d'] && c' != d';
      FullRangeNoDup(r);
    }
  }
}
