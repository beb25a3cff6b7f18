// sigma_to_pairs (the same in minimize.c and determinize.c): every in:out pair
// on an arc gets a dense number, in order of first occurrence.

module Symbols {
  import opened Nets
  import opened Counting

  // num and pairs are inverse to each other.
  ghost predicate Numbering(num: map<Letter, int>, pairs: seq<Letter>) {
    && (forall l :: l in num ==> 0 <= num[l] < |pairs| && pairs[num[l]] == l)
    && (forall k :: 0 <= k < |pairs| ==> pairs[k] in num && num[pairs[k]] == k)
  }

  ghost predicate Labels(t: seq<Line>, k: nat, l: Letter)
    requires k <= |t|
  {
    exists i :: 0 <= i < k && t[i].target != -1 && LineArc(t[i]).letter == l
  }

  method SigmaToPairs(t: seq<Line>, ghost n: nat)
    returns (num: map<Letter, int>, pairs: seq<Letter>, epsilon: int)
    requires forall i :: 0 <= i < |t| ==> LineOK(t[i], n)
    ensures Numbering(num, pairs) && |pairs| <= |t|
    ensures forall l :: l in num <==> Labels(t, |t|, l)
    ensures epsilon == if EPS in num then num[EPS] else -1
  {
    num, pairs, epsilon := map[], [], -1;
    for i := 0 to |t|
      invariant Numbering(num, pairs) && |pairs| <= i
      invariant forall l :: l in num <==> Labels(t, i, l)
      invariant epsilon == if EPS in num then num[EPS] else -1
    {
      var l := Letter(t[i].inp, t[i].outp);
      if l.inp != -1 && l.outp != -1 {
        if l !in num {
          num := num[l := |pairs|];
          pairs := pairs + [l];
          if l == EPS {
            epsilon := num[l];
          }
        }
      }
      forall k ensures Labels(t, i + 1, k) <==> Labels(t, i, k) || (t[i].target != -1 && k == l) {
        if Labels(t, i + 1, k) && !Labels(t, i, k) {
          var j :| 0 <= j < i + 1 && t[j].target != -1 && LineArc(t[j]).letter == k;
          assert j == i;
        }
      }
    }
  }

  // There are as many numbers as letters.
  lemma NumberOfLetters(t: seq<Line>, num: map<Letter, int>, pairs: seq<Letter>)
    requires Numbering(num, pairs) && forall l :: l in num <==> Labels(t, |t|, l)
    ensures |pairs| == |Letters(ArcsOf(t))|
  {
    forall l ensures l in Elements(pairs) <==> l in Letters(ArcsOf(t)) {
      if l in pairs {
        assert l in num;
        var i :| 0 <= i < |t| && t[i].target != -1 && LineArc(t[i]).letter == l;
        assert LineArc(t[i]) in ArcsOf(t);
      }
      if l in Letters(ArcsOf(t)) {
        var a :| a in ArcsOf(t) && a.letter == l;
        var i :| 0 <= i < |t| && t[i].target != -1 && LineArc(t[i]) == a;
        assert Labels(t, |t|, l) && pairs[num[l]] == l;
      }
    }
    assert Elements(pairs) == Letters(ArcsOf(t));
    NoDupSize(pairs);
  }
}
