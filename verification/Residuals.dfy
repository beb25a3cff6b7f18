// The states of two deterministic nets compared by the words accepted from them.

module Residuals {
  import opened Nets
  import opened Nerode
  import opened Pruning

  // q of m and x of k accept the same words.
  ghost predicate Alike(m: Net, q: int, k: Net, x: int) {
    forall w :: AcceptsFrom(m, q, w) <==> AcceptsFrom(k, x, w)
  }

  ghost predicate HasAlike(m: Net, q: int, k: Net) {
    exists x :: 0 <= x < k.states && Alike(m, q, k, x)
  }

  ghost predicate Covers(m: Net, k: Net) {
    forall q :: 0 <= q < m.states && Productive(m, q) ==> HasAlike(m, q, k)
  }

  // Up to states that lead nowhere, the states accept the same.
  ghost predicate SameStates(m: Net, k: Net) {
    Covers(m, k) && Covers(k, m)
  }

  lemma AlikeSwap(m: Net, q: int, k: Net, x: int)
    requires Alike(m, q, k, x)
    ensures Alike(k, x, m, q)
  {
  }

  lemma AlikeTrans(m: Net, q: int, k: Net, x: int, p: Net, y: int)
    requires Alike(m, q, k, x) && Alike(k, x, p, y)
    ensures Alike(m, q, p, y)
  {
    hide AcceptsFrom;
    forall w ensures AcceptsFrom(m, q, w) <==> AcceptsFrom(p, y, w) {
      assert AcceptsFrom(m, q, w) <==> AcceptsFrom(k, x, w);
    }
  }

  lemma AcceptsIsProductive(m: Net, q: int, w: seq<Letter>)
    requires Deterministic(m) && AcceptsFrom(m, q, w)
    ensures Productive(m, q)
  {
    var path := RunIsPath(m, q, w);
    assert Reaches(m.arcs, q, Run(m.arcs, q, w));
  }

  lemma AlikeProductive(m: Net, q: int, k: Net, x: int)
    requires Deterministic(m) && Deterministic(k) && Productive(m, q) && Alike(m, q, k, x)
    ensures Productive(k, x)
  {
    hide AcceptsFrom, Productive;
    var w := ProductiveByWord(m, q);
    AcceptsIsProductive(k, x, w);
  }

  lemma CoversTrans(m: Net, k: Net, p: Net)
    requires Deterministic(m) && Deterministic(k) && Deterministic(p) && Covers(m, k) && Covers(k, p)
    ensures Covers(m, p)
  {
    hide Alike, Productive, Deterministic;
    forall q | 0 <= q < m.states && Productive(m, q) ensures HasAlike(m, q, p) {
      var x :| 0 <= x < k.states && Alike(m, q, k, x);
      AlikeProductive(m, q, k, x);
      var y :| 0 <= y < p.states && Alike(k, x, p, y);
      AlikeTrans(m, q, k, x, p, y);
    }
  }

  lemma SameStatesTrans(m: Net, k: Net, p: Net)
    requires Deterministic(m) && Deterministic(k) && Deterministic(p) && SameStates(m, k) && SameStates(k, p)
    ensures SameStates(m, p)
  {
    CoversTrans(m, k, p);
    CoversTrans(p, k, m);
  }

  lemma SameStatesSelf(m: Net)
    ensures SameStates(m, m)
  {
    forall q | 0 <= q < m.states ensures HasAlike(m, q, m) {
      assert Alike(m, q, m, q);
    }
  }

  // Nothing is productive in either.
  lemma NoneProductive(m: Net, k: Net)
    requires m.finals == {} && k.finals == {}
    ensures SameStates(m, k)
  {
  }

  lemma QuotientStates(m: Net, k: Net, num: seq<int>)
    requires Closed(m) && Closed(k) && IsQuotient(m, k, num)
    ensures SameStates(m, k)
  {
    forall p | 0 <= p < m.states ensures HasAlike(m, p, k) && Alike(m, p, k, num[p]) {
      forall w ensures AcceptsFrom(m, p, w) <==> AcceptsFrom(k, num[p], w) {
        QuotientAccepts(m, k, num, p, w);
      }
      assert 0 <= num[p] < k.states && Alike(m, p, k, num[p]);
    }
    forall x | 0 <= x < k.states ensures HasAlike(k, x, m) {
      assert x in num;
      var p :| 0 <= p < m.states && num[p] == x;
      AlikeSwap(m, p, k, x);
    }
  }

  // What a kept state accepts it still accepts.
  lemma {:induction false} PrunedAccepts(m: Net, k: Net, co: seq<bool>, q: int, w: seq<Letter>)
    requires Deterministic(m) && Deterministic(k) && IsPruned(m, k, co) && 0 <= q < m.states && co[q]
    ensures AcceptsFrom(m, q, w) <==> AcceptsFrom(k, Renumber(co, q), w)
    decreases w
  {
    if AcceptsFrom(m, q, w) {
      var path := RunIsPath(m, q, w);
      var f := Run(m.arcs, q, w);
      FinalIsProductive(m, f);
      var path' := KeepPath(m, k, co, q, path, f);
      PathIsRun(k, Renumber(co, q), path', Renumber(co, f));
      assert Renumbered(m.finals, co, Renumber(co, f));
    }
    if AcceptsFrom(k, Renumber(co, q), w) {
      var path' := RunIsPath(k, Renumber(co, q), w);
      var f' := Run(k.arcs, Renumber(co, q), w);
      var path, f := UnkeepPath(m, k, co, q, path', f');
      PathIsRun(m, q, path, f);
      assert Renumbered(m.finals, co, f');
      var g :| g in m.finals && 0 <= g < |co| && co[g] && Renumber(co, g) == f';
      RenumberInjective(co, f, g);
    }
  }

  lemma PrunedStates(m: Net, k: Net, co: seq<bool>)
    requires Deterministic(m) && Deterministic(k) && IsPruned(m, k, co)
    ensures SameStates(m, k)
  {
    hide AcceptsFrom, Deterministic, Productive;
    forall q | 0 <= q < m.states && co[q] ensures 0 <= Renumber(co, q) < k.states && Alike(m, q, k, Renumber(co, q)) {
      NumberBound(co, q);
      forall w ensures AcceptsFrom(m, q, w) <==> AcceptsFrom(k, Renumber(co, q), w) {
        PrunedAccepts(m, k, co, q, w);
      }
    }
    forall x | 0 <= x < k.states ensures HasAlike(k, x, m) {
      var q := RenumberOnto(co, m.states - 1, x);
      AlikeSwap(m, q, k, x);
    }
  }

  // ---- Reachability ----

  // Every productive state accepts what some reachable state accepts.
  ghost predicate NoStray(m: Net) {
    forall q :: 0 <= q < m.states && Productive(m, q) ==> HasReachable(m, q)
  }

  ghost predicate HasReachable(m: Net, q: int) {
    exists p :: 0 <= p < m.states && Reachable(m, p) && Alike(m, q, m, p)
  }

  lemma RunReachable(m: Net, u: seq<Letter>)
    requires Deterministic(m) && Run(m.arcs, 0, u) != -1
    ensures 0 <= Run(m.arcs, 0, u) < m.states && Reachable(m, Run(m.arcs, 0, u))
  {
    assert 0 in m.starts;
    RunStays(m, 0, u);
    var path := RunIsPath(m, 0, u);
    assert Reaches(m.arcs, 0, Run(m.arcs, 0, u));
  }

  // The states that two nets reach on one word.
  lemma Companion(m: Net, k: Net, p: int) returns (y: int)
    requires Deterministic(m) && Deterministic(k) && SameLanguage(m, k) && Reachable(m, p) && Productive(m, p)
    ensures 0 <= y < k.states && Reachable(k, y) && Alike(m, p, k, y)
  {
    hide Productive, Reachable, Deterministic;
    var u := ReachedByWord(m, p);
    y := Run(k.arcs, 0, u);
    forall w ensures AcceptsFrom(m, p, w) <==> AcceptsFrom(k, y, w) {
      SameResidual(m, k, u, w);
    }
    var w := ProductiveByWord(m, p);
    if y == -1 {
      IsClosed(k);
      DeadRun(k, w);
    }
    RunReachable(k, u);
  }

  lemma IsClosed(m: Net)
    requires Deterministic(m)
    ensures Closed(m)
  {
  }

  // A reduced net with the states of m has only reachable ones exactly if m has
  // no state apart that accepts something else.
  lemma ReachableExactly(m: Net, k: Net)
    requires Deterministic(m) && Deterministic(k) && SameLanguage(m, k) && SameStates(m, k) && Reduced(k) && Trim(k)
    ensures AllReachable(k) <==> NoStray(m)
  {
    hide Deterministic, SameLanguage, Reachable, Productive, Alike, Inequivalent;
    if AllReachable(k) {
      forall q | 0 <= q < m.states && Productive(m, q) ensures HasReachable(m, q) {
        var x :| 0 <= x < k.states && Alike(m, q, k, x);
        AlikeProductive(m, q, k, x);
        SameSwap(m, k);
        var p := Companion(k, m, x);
        AlikeTrans(m, q, k, x, m, p);
      }
    }
    if NoStray(m) {
      forall x | 0 <= x < k.states ensures Reachable(k, x) {
        assert Productive(k, x) && HasAlike(k, x, m);
        var q :| 0 <= q < m.states && Alike(k, x, m, q);
        AlikeProductive(k, x, m, q);
        var p :| 0 <= p < m.states && Reachable(m, p) && Alike(m, q, m, p);
        AlikeProductive(m, q, m, p);
        var y := Companion(m, k, p);
        AlikeTrans(k, x, m, q, m, p);
        AlikeTrans(k, x, m, p, k, y);
        OneState(k, x, y);
      }
    }
  }

  lemma OneState(k: Net, x: int, y: int)
    requires Reduced(k) && 0 <= x < k.states && 0 <= y < k.states && Alike(k, x, k, y)
    ensures x == y
  {
    assert x != y ==> Inequivalent(k, x, y);
  }

  lemma SameSwap(m: Net, k: Net)
    requires SameLanguage(m, k)
    ensures SameLanguage(k, m)
  {
  }

  lemma ReachableNoStray(m: Net)
    requires AllReachable(m)
    ensures NoStray(m)
  {
    forall q | 0 <= q < m.states ensures HasReachable(m, q) {
      assert Reachable(m, q) && Alike(m, q, m, q);
    }
  }
}
