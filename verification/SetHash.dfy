// hashf (determinize.c): a hash of a list of states that does not depend on
// its order, in unsigned 32-bit arithmetic.

module SetHash {
  import opened Counting
  import opened Widths

  const SEED := 6703271

  // The loop of hashf after k elements: hashval and sum.
  function HashValue(s: seq<int>, k: nat): int
    requires k <= |s|
  {
    if k == 0 then SEED else ((s[k - 1] + 1103 * |s|) % WORD * HashValue(s, k - 1)) % WORD
  }

  function HashSum(s: seq<int>, k: nat): int
    requires k <= |s|
  {
    if k == 0 then 0 else (HashSum(s, k - 1) + s[k - 1] + (k - 1)) % WORD
  }

  function Hash(s: seq<int>, tablesize: nat): (h: int)
    requires tablesize > 0
    ensures 0 <= h < tablesize
  {
    ((HashValue(s, |s|) + HashSum(s, |s|) * 31) % WORD) % tablesize
  }

  method HashF(s: seq<int>, tablesize: nat) returns (h: int)
    requires tablesize > 0
    ensures h == Hash(s, tablesize)
  {
    var hashval, sum := SEED, 0;
    for i := 0 to |s|
      invariant hashval == HashValue(s, i) && sum == HashSum(s, i)
    {
      hashval := ((s[i] + 1103 * |s|) % WORD * hashval) % WORD;
      sum := (sum + s[i] + i) % WORD;
    }
    hashval := (hashval + sum * 31) % WORD;
    h := hashval % tablesize;
  }

  // ---- The same without wrap-around ----

  ghost function Product(s: seq<int>, c: int): int {
    if s == [] then 1 else (s[|s| - 1] + c) * Product(s[..|s| - 1], c)
  }

  ghost function Sum(s: seq<int>): int {
    if s == [] then 0 else s[|s| - 1] + Sum(s[..|s| - 1])
  }

  ghost function Triangle(k: nat): int {
    if k == 0 then 0 else Triangle(k - 1) + k - 1
  }

  lemma ModProduct(a: int, b: int)
    ensures (a % WORD * (b % WORD)) % WORD == (a * b) % WORD
  {
    var p, q := a / WORD, b / WORD;
    var r, t := a % WORD, b % WORD;
    assert a == WORD * p + r && b == WORD * q + t;
    calc {
      a * b;
      (WORD * p + r) * b;
      WORD * p * b + r * b;
      WORD * (p * b) + r * b;
    }
    calc {
      r * b;
      r * (WORD * q + t);
      WORD * (r * q) + r * t;
    }
    ModShift(r * t, p * b + r * q);
    assert a * b == r * t + WORD * (p * b + r * q);
  }

  lemma ModShift(x: int, k: int)
    ensures (x + WORD * k) % WORD == x % WORD
  {
  }

  lemma {:induction false} ValueIsProduct(s: seq<int>, k: nat)
    requires k <= |s|
    ensures HashValue(s, k) == (SEED * Product(s[..k], 1103 * |s|)) % WORD
    decreases k
  {
    if k > 0 {
      var c := 1103 * |s|;
      ValueIsProduct(s, k - 1);
      assert s[..k][..k - 1] == s[..k - 1];
      var p := Product(s[..k - 1], c);
      var x := s[k - 1] + c;
      ModProduct(x, SEED * p);
      assert x * (SEED * p) == SEED * (x * p);
    }
  }

  lemma {:induction false} SumIsTotal(s: seq<int>, k: nat)
    requires k <= |s|
    ensures HashSum(s, k) == (Sum(s[..k]) + Triangle(k)) % WORD
    decreases k
  {
    if k > 0 {
      SumIsTotal(s, k - 1);
      assert s[..k][..k - 1] == s[..k - 1];
    }
  }

  // ---- Order does not matter ----

  lemma {:induction false} FoldRemove(s: seq<int>, j: nat, c: int)
    requires j < |s|
    ensures Product(s, c) == (s[j] + c) * Product(s[..j] + s[j + 1..], c)
    ensures Sum(s) == s[j] + Sum(s[..j] + s[j + 1..])
    decreases |s|
  {
    var r := s[..j] + s[j + 1..];
    if j == |s| - 1 {
      assert r == s[..|s| - 1];
    } else {
      var t := s[..|s| - 1];
      FoldRemove(t, j, c);
      assert r[..|r| - 1] == t[..j] + t[j + 1..];
      var p := Product(r[..|r| - 1], c);
      var x, y := s[|s| - 1] + c, s[j] + c;
      assert x * (y * p) == y * (x * p);
    }
  }

  lemma MultisetRemove(t: seq<int>, j: nat)
    requires j < |t|
    ensures multiset(t[..j] + t[j + 1..]) == multiset(t) - multiset{t[j]}
  {
    assert t == t[..j] + [t[j]] + t[j + 1..];
  }

  lemma {:induction false} FoldPermuted(s: seq<int>, t: seq<int>, c: int)
    requires multiset(s) == multiset(t)
    ensures Product(s, c) == Product(t, c) && Sum(s) == Sum(t)
    decreases |s|
  {
    if s == [] {
      assert t == [] by {
        assert |multiset(t)| == |t|;
      }
    } else {
      var k := |s| - 1;
      assert s[k] in multiset(t);
      var j :| 0 <= j < |t| && t[j] == s[k];
      MultisetRemove(t, j);
      MultisetRemove(s, k);
      var s', t' := s[..k] + s[k + 1..], t[..j] + t[j + 1..];
      FoldPermuted(s', t', c);
      FoldRemove(s, k, c);
      FoldRemove(t, j, c);
    }
  }

  lemma {:induction false} SetMultiset(s: seq<int>, x: int)
    requires NoDup(s)
    ensures multiset(s)[x] == if x in s then 1 else 0
    decreases |s|
  {
    if s != [] {
      var r := s[..|s| - 1];
      assert s == r + [s[|s| - 1]];
      SetMultiset(r, x);
      assert s[|s| - 1] !in r;
    }
  }

  lemma HashOfSet(s: seq<int>, t: seq<int>, tablesize: nat)
    requires NoDup(s) && NoDup(t) && Elements(s) == Elements(t) && tablesize > 0
    ensures Hash(s, tablesize) == Hash(t, tablesize)
  {
    assert multiset(s) == multiset(t) by {
      forall x ensures multiset(s)[x] == multiset(t)[x] {
        SetMultiset(s, x);
        SetMultiset(t, x);
        assert x in s <==> x in Elements(s);
        assert x in t <==> x in Elements(t);
      }
    }
    assert |s| == |multiset(s)| == |multiset(t)| == |t|;
    FoldPermuted(s, t, 1103 * |s|);
    ValueIsProduct(s, |s|);
    ValueIsProduct(t, |t|);
    SumIsTotal(s, |s|);
    SumIsTotal(t, |t|);
    assert s[..|s|] == s && t[..|t|] == t;
  }
}
