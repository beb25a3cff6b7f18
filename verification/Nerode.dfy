// Inequivalence of states, quotients of deterministic nets, and the fact that
// a trim, reachable net with pairwise inequivalent states is the smallest one.

module Nerode {
  import opened Nets
  import opened Counting

  ghost predicate Inequivalent(m: Net, p: int, q: int) {
    exists w :: AcceptsFrom(m, p, w) != AcceptsFrom(m, q, w)
  }

  ghost predicate Reduced(m: Net) {
    forall p, q :: 0 <= p < m.states && 0 <= q < m.states && p != q ==> Inequivalent(m, p, q)
  }

  ghost predicate AllReachable(m: Net) {
    forall q :: 0 <= q < m.states ==> Reachable(m, q)
  }

  // k is m with every state p renamed to num[p].
  ghost predicate IsQuotient(m: Net, k: Net, num: seq<int>) {
    && |num| == m.states
    && AllBelow(num, k.states)
    && (forall r :: 0 <= r < k.states ==> r in num)
    && 0 < m.states && num[0] == 0
    && (forall p :: 0 <= p < m.states ==> (p in m.finals <==> num[p] in k.finals))
    && (forall p, l :: 0 <= p < m.states ==> NextAgrees(m, k, num, p, l))
  }

  ghost predicate NextAgrees(m: Net, k: Net, num: seq<int>, p: int, l: Letter)
    requires |num| == m.states && 0 <= p < m.states
  {
    var t := Next(m.arcs, p, l);
    -1 <= t < m.states && Next(k.arcs, num[p], l) == if t == -1 then -1 else num[t]
  }

  lemma {:induction false} QuotientAccepts(m: Net, k: Net, num: seq<int>, p: int, w: seq<Letter>)
    requires IsQuotient(m, k, num) && 0 <= p < m.states
    requires -1 !in m.finals && -1 !in k.finals
    ensures AcceptsFrom(k, num[p], w) <==> AcceptsFrom(m, p, w)
    decreases w
  {
    if w != [] {
      assert NextAgrees(m, k, num, p, w[0]);
      if Next(m.arcs, p, w[0]) != -1 {
        QuotientAccepts(m, k, num, Next(m.arcs, p, w[0]), w[1..]);
      }
    }
  }

  lemma QuotientLanguage(m: Net, k: Net, num: seq<int>)
    requires Deterministic(m) && Deterministic(k) && IsQuotient(m, k, num)
    ensures SameLanguage(m, k)
  {
    forall w ensures Accepts(m, w) <==> Accepts(k, w) {
      AcceptsByRun(m, w);
      AcceptsByRun(k, w);
      QuotientAccepts(m, k, num, 0, w);
    }
  }

  lemma QuotientReduced(m: Net, k: Net, num: seq<int>)
    requires Closed(m) && Closed(k) && IsQuotient(m, k, num)
    requires forall p, q :: 0 <= p < m.states && 0 <= q < m.states && num[p] != num[q] ==> Inequivalent(m, p, q)
    ensures Reduced(k)
  {
    forall r, t | 0 <= r < k.states && 0 <= t < k.states && r != t ensures Inequivalent(k, r, t) {
      assert r in num && t in num;
      var p :| 0 <= p < m.states && num[p] == r;
      var q :| 0 <= q < m.states && num[q] == t;
      assert Inequivalent(m, p, q);
      var w :| AcceptsFrom(m, p, w) != AcceptsFrom(m, q, w);
      QuotientAccepts(m, k, num, p, w);
      QuotientAccepts(m, k, num, q, w);
    }
  }

  lemma ReachedByWord(m: Net, q: int) returns (u: seq<Letter>)
    requires Deterministic(m) && Reachable(m, q)
    ensures Run(m.arcs, 0, u) == q
  {
    var path :| Path(m.arcs, 0, path, q);
    PathIsRun(m, 0, path, q);
    u := Word(path);
  }

  lemma ProductiveByWord(m: Net, q: int) returns (u: seq<Letter>)
    requires Deterministic(m) && Productive(m, q)
    ensures AcceptsFrom(m, q, u)
  {
    var f :| f in m.finals && Reaches(m.arcs, q, f);
    var path :| Path(m.arcs, q, path, f);
    PathIsRun(m, q, path, f);
    u := Word(path);
  }

  // The states that two deterministic nets of the same language reach on one
  // word accept the same continuations.
  lemma SameResidual(m: Net, k: Net, u: seq<Letter>, w: seq<Letter>)
    requires Deterministic(m) && Deterministic(k) && SameLanguage(m, k)
    ensures AcceptsFrom(m, Run(m.arcs, 0, u), w) <==> AcceptsFrom(k, Run(k.arcs, 0, u), w)
  {
    RunConcat(m.arcs, 0, u, w);
    RunConcat(k.arcs, 0, u, w);
    AcceptsByRun(m, u + w);
    AcceptsByRun(k, u + w);
  }

  lemma {:induction false} AccessWords(m: Net, n: nat) returns (us: seq<seq<Letter>>)
    requires Deterministic(m) && AllReachable(m) && n <= m.states
    ensures |us| == n && forall q :: 0 <= q < n ==> Run(m.arcs, 0, us[q]) == q
    decreases n
  {
    if n == 0 {
      us := [];
    } else {
      us := AccessWords(m, n - 1);
      var u := ReachedByWord(m, n - 1);
      us := us + [u];
    }
  }

  // Minimality: no deterministic net of the same language has fewer states.
  lemma ReducedIsSmallest(m: Net, k: Net)
    requires Deterministic(m) && AllReachable(m) && Trim(m) && Reduced(m)
    requires Deterministic(k) && SameLanguage(m, k)
    ensures m.states <= k.states
  {
    var us := AccessWords(m, m.states);
    var image := seq(m.states, q requires 0 <= q < m.states => Run(k.arcs, 0, us[q]));
    forall q | 0 <= q < m.states ensures 0 <= image[q] < k.states {
      var w := ProductiveByWord(m, q);
      SameResidual(m, k, us[q], w);
      RunStays(k, 0, us[q]);
      if image[q] == -1 {
        DeadRun(k, w);
      }
    }
    forall p, q | 0 <= p < q < m.states ensures image[p] != image[q] {
      assert Inequivalent(m, p, q);
      var w :| AcceptsFrom(m, p, w) != AcceptsFrom(m, q, w);
      SameResidual(m, k, us[p], w);
      SameResidual(m, k, us[q], w);
    }
    NoDupBound(image, k.states);
  }
}
