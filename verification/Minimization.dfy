// fsm_minimize (minimize.c) as it runs by default: determinize, trim, then
// Hopcroft's algorithm.

module Minimization {
  import opened Nets
  import opened Counting
  import opened Nerode
  import opened Residuals
  import opened Pruning
  import opened Powerset
  import Order
  import Construct
  import Widths
  import Determinize
  import Compaction
  import Minimize

  // The smallest deterministic net for the language of m.
  ghost predicate IsMinimal(m: Net, k: Net) {
    && Deterministic(k) && SameLanguage(m, k) && AllReachable(k) && Reduced(k)
    && (forall other :: Deterministic(other) && SameLanguage(m, other) ==> k.states <= other.states)
  }

  // What determinizing and trimming make ready for Hopcroft's algorithm.
  ghost predicate IsReady(m: Net, p: Net) {
    && Deterministic(p) && (AllReachable(m) ==> AllReachable(p)) && SameLanguage(m, p) && SameStates(m, p)
    && Letters(p.arcs) <= Letters(m.arcs) && (p.finals == {} || Trim(p))
  }

  lemma SameTrans(m: Net, k: Net, p: Net)
    requires SameLanguage(m, k) && SameLanguage(k, p)
    ensures SameLanguage(m, p)
  {
    hide Accepts;
    forall w ensures Accepts(m, w) <==> Accepts(p, w) {
      assert Accepts(m, w) <==> Accepts(k, w);
      assert Accepts(k, w) <==> Accepts(p, w);
    }
  }

  lemma SameBack(m: Net, k: Net)
    requires SameLanguage(m, k)
    ensures SameLanguage(k, m)
  {
  }

  // A final state that can be reached makes the start state productive.
  lemma StartProductive(d: Net)
    requires Deterministic(d) && AllReachable(d)
    ensures d.states > 0 && (d.finals != {} ==> Productive(d, 0))
  {
    assert 0 in d.starts;
    if d.finals != {} {
      assert (forall f :: f !in d.finals) ==> d.finals == {};
      var f :| f in d.finals;
      assert Reachable(d, f);
    }
  }

  // The empty set is a net of its own.
  lemma EmptyReady(d: Net)
    requires d.finals == {}
    ensures IsTable([EMPTY_LINE], 1) && IsReady(d, Meaning([EMPTY_LINE], 1)) && FinalsOf([EMPTY_LINE]) == {}
  {
    Construct.EmptyTable();
    var p := Meaning([EMPTY_LINE], 1);
    TableIsClosed([EMPTY_LINE], 1);
    NoneProductive(d, p);
    assert Path(p.arcs, 0, [], 0);
    assert Reaches(p.arcs, 0, 0);
  }

  lemma PrunedReady(d: Net, p: Net)
    requires Deterministic(d) && SameLanguage(d, p) && Trim(p) && exists co :: IsPruned(d, p, co)
    ensures IsReady(d, p)
  {
    hide IsPruned, SameLanguage, Trim, Reachable, SameStates;
    var co :| IsPruned(d, p, co);
    PrunedDeterministic(d, p, co);
    PrunedStates(d, p, co);
    if AllReachable(d) {
      IsPrunedSize(d, p, co);
      PrunedReachable(d, p, co);
    }
  }

  lemma IsPrunedSize(d: Net, p: Net, co: seq<bool>)
    requires IsPruned(d, p, co)
    ensures |co| == d.states
  {
  }

  // What minimization makes of a deterministic net d.
  ghost predicate IsReducedNet(d: Net, k: Net) {
    Deterministic(k) && SameLanguage(d, k) && Reduced(k) && (AllReachable(k) <==> NoStray(d))
        && (Trim(k) || k.states == 1)
  }

  lemma ReadyReduced(d: Net, p: Net, k: Net)
    requires Deterministic(d) && IsReady(d, p) && Minimize.IsMinimized(p, k) && (p.finals == {} ==> k.states == 1)
    ensures IsReducedNet(d, k)
  {
    SameTrans(d, p, k);
    SameStatesTrans(d, p, k);
    hide Productive, Reachable, SameLanguage, SameStates, Deterministic;
    if p.finals != {} {
      ReachableExactly(d, k);
    } else {
      EmptyReduced(d, p, k);
    }
  }

  lemma EmptyReduced(d: Net, p: Net, k: Net)
    requires Deterministic(d) && SameStates(d, p) && p.finals == {} && Deterministic(k) && k.states == 1
    ensures Reduced(k) && AllReachable(k) && NoStray(d)
  {
    assert 0 in k.starts;
    assert Path(k.arcs, 0, [], 0);
    assert Reaches(k.arcs, 0, 0);
    hide Alike, Deterministic, Reaches, Productive;
    forall q | 0 <= q < d.states ensures !Productive(d, q) {
      if Productive(d, q) {
        assert HasAlike(d, q, p);
        var x :| 0 <= x < p.states && Alike(d, q, p, x);
        AcceptsNothing(d, q, p, x);
      }
    }
  }

  lemma AcceptsNothing(d: Net, q: int, p: Net, x: int)
    requires Deterministic(d) && Productive(d, q) && p.finals == {}
    ensures !Alike(d, q, p, x)
  {
    var w := ProductiveByWord(d, q);
    assert AcceptsFrom(d, q, w) && !AcceptsFrom(p, x, w);
  }

  lemma ReducedMinimal(m: Net, d: Net, k: Net)
    requires SameLanguage(m, d) && IsReducedNet(d, k)
    ensures IsMinimal(m, k) <==> NoStray(d)
  {
    hide Reachable, Productive, NoStray;
    SameTrans(m, d, k);
    if AllReachable(k) {
      forall other | Deterministic(other) && SameLanguage(m, other) ensures k.states <= other.states {
        if Trim(k) {
          SameBack(m, k);
          SameTrans(k, m, other);
          ReducedIsSmallest(k, other);
        } else {
          assert 0 in other.starts;
        }
      }
    }
  }

  method WithSentinel(t: seq<Line>) returns (fsm: array<Line>)
    ensures fresh(fsm) && fsm.Length == |t| + 1 && fsm[..|t|] == t && fsm[|t|] == SENTINEL
  {
    fsm := new Line[|t| + 1](i requires 0 <= i <= |t| => if i < |t| then t[i] else SENTINEL);
    assert fsm[..|t|] == t;
  }

  method TrimNet(t: seq<Line>, n: nat, pruned: bool) returns (fsm: array<Line>, states: nat, lines: nat)
    requires IsTable(t, n) && Grouped(t) && Order.InOrder(t) && Deterministic(Meaning(t, n))
    requires FinalsOf(t) != {} ==> if pruned then Trim(Meaning(t, n)) else Productive(Meaning(t, n), 0)
    ensures fresh(fsm) && lines < fsm.Length && fsm[lines].state == -1
    ensures IsTable(fsm[..lines], states) && IsReady(Meaning(t, n), Meaning(fsm[..lines], states))
  {
    hide IsTable, Grouped, Order.InOrder, FinalsOf, Trim, SameLanguage, IsPruned, IsReady, Deterministic, Productive;
    ghost var d := Meaning(t, n);
    fsm := WithSentinel(t);
    if pruned {
      AlreadyReady(d);
      return fsm, n, |t|;
    }
    SomeState(d);
    fsm, lines, states := Compaction.FsmCoaccessible(fsm, n, t);
    if FinalsOf(t) == {} {
      EmptyReady(d);
      states := 1; // fsm_count counts the states again
    } else {
      PrunedReady(d, Meaning(fsm[..lines], states));
    }
  }

  lemma SomeState(d: Net)
    requires Deterministic(d)
    ensures d.states > 0
  {
    assert 0 in d.starts;
  }

  lemma AlreadyReady(d: Net)
    requires Deterministic(d) && (d.finals != {} ==> Trim(d))
    ensures IsReady(d, d)
  {
    hide Accepts;
    SameStatesSelf(d);
  }

  // deterministic and pruned are the marks of the net.  The result is the smallest
  // net unless determinizing kept the table and it has states that cannot be
  // reached, from which something is accepted as from no reachable state.
  method FsmMinimize(t: seq<Line>, n: nat, deterministic: bool, pruned: bool)
    returns (out: array<Line>, states: nat, lines: nat)
    requires IsTable(t, n) && Grouped(t) && StartsOf(t) != {} && |Letters(ArcsOf(t))| < Widths.INT_MAX
    requires deterministic ==> Deterministic(Meaning(t, n))
    requires Determinize.Keeps(t, n, deterministic) ==>
               Order.InOrder(t) && (FinalsOf(t) != {} ==> Productive(Meaning(t, n), 0))
    requires pruned && FinalsOf(t) != {} ==> Trim(Meaning(t, n))
    ensures lines < out.Length && out[lines].state == -1 && IsTable(out[..lines], states)
    ensures var m, k := Meaning(t, n), Meaning(out[..lines], states);
            && Deterministic(k) && SameLanguage(m, k) && Reduced(k)
            && (IsMinimal(m, k) <==> !Determinize.Keeps(t, n, deterministic) || NoStray(m))
  {
    hide IsTable, Grouped, Order.InOrder, StartsOf, FinalsOf, ArcsOf, Letters, Deterministic, Trim, SameLanguage,
         Reachable, IsSubsetNet, Minimize.IsMinimized, IsMinimal, NoStray, Productive, IsReducedNet, Reduced;
    var det, detStates, kept := Determinize.FsmDeterminize(t, n, deterministic);
    ghost var m, d := Meaning(t, n), Meaning(det, detStates);
    if !kept {
      SubsetLetters(m, d);
      StartProductive(d);
      ReachableNoStray(d);
    }
    var fsm, count, size := TrimNet(det, detStates, kept && pruned);
    ghost var p := Meaning(fsm[..size], count);
    ReadyFor(m, d, p);
    SubsetSize(Letters(p.arcs), Letters(m.arcs));
    out, states, lines := Minimize.MinimizeHop(fsm, count, fsm[..size]);
    ghost var k := Meaning(out[..lines], states);
    ReadyReduced(d, p, k);
    ReducedMinimal(m, d, k);
    ReducedFor(m, d, k);
  }

  lemma ReadyFor(m: Net, d: Net, p: Net)
    requires Letters(d.arcs) <= Letters(m.arcs) && IsReady(d, p)
    ensures Letters(p.arcs) <= Letters(m.arcs) && Deterministic(p)
  {
    hide SameLanguage, Letters, SameStates;
  }

  lemma ReducedFor(m: Net, d: Net, k: Net)
    requires SameLanguage(m, d) && IsReducedNet(d, k)
    ensures Deterministic(k) && SameLanguage(m, k) && Reduced(k)
  {
    SameTrans(m, d, k);
  }

  // ---- A state that cannot be reached ----

  // An unreachable final state before the final start state is kept.
  lemma StrayKept(l: Letter, k: Net)
    requires l != EPS && IsReducedNet(Net(2, {Arc(1, l, 0)}, {0}, {0}), k)
    ensures !IsMinimal(Net(2, {Arc(1, l, 0)}, {0}, {0}), k)
  {
    var m := Net(2, {Arc(1, l, 0)}, {0}, {0});
    hide IsReducedNet;
    assert Reaches(m.arcs, 1, 0) by {
      assert Path(m.arcs, 0, [], 0);
      assert [Arc(1, l, 0)][1..] == [];
      assert Path(m.arcs, 1, [Arc(1, l, 0)], 0);
    }
    assert !NoStray(m) by {
      assert Productive(m, 1);
      forall p | 0 <= p < m.states && Reachable(m, p) ensures !Alike(m, 1, m, p) {
        OnlyStart(m, p);
        assert AcceptsFrom(m, 0, []) && !AcceptsFrom(m, 1, []);
      }
    }
    SameItself(m);
    ReducedMinimal(m, m, k);
  }

  lemma OnlyStart(m: Net, p: int)
    requires m.starts == {0} && Reachable(m, p) && forall a :: a in m.arcs ==> a.src != 0
    ensures p == 0
  {
    var path :| Path(m.arcs, 0, path, p);
  }

  lemma SameItself(m: Net)
    ensures SameLanguage(m, m)
  {
  }
}
