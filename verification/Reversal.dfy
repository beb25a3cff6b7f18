// fsm_reverse (reverse.c): every arc is turned round between states numbered
// one higher, and a fresh start state 0 has a 0:0 arc to every old final state.

module Reversal {
  import opened Nets
  import opened Counting
  import opened Pointers
  import opened Order
  import opened Construct
  import opened Reading

  function Backwards<T>(w: seq<T>): (r: seq<T>)
    ensures |r| == |w|
  {
    if w == [] then [] else Backwards(w[1..]) + [w[0]]
  }

  lemma {:induction false} BackwardsConcat<T>(u: seq<T>, v: seq<T>)
    ensures Backwards(u + v) == Backwards(v) + Backwards(u)
  {
    if u == [] {
      assert u + v == v;
    } else {
      BackwardsConcat(u[1..], v);
      assert (u + v)[1..] == u[1..] + v;
    }
  }

  lemma {:induction false} BackwardsTwice<T>(w: seq<T>)
    ensures Backwards(Backwards(w)) == w
  {
    if w != [] {
      BackwardsTwice(w[1..]);
      BackwardsConcat(Backwards(w[1..]), [w[0]]);
      assert Backwards([w[0]]) == Backwards([w[0]][1..]) + [w[0]] == [w[0]];
    }
  }

  // ---- The reversed net ----

  ghost predicate Back(arcs: set<Arc>, a: Arc) {
    a.src > 0 && a.dst > 0 && Arc(a.dst - 1, a.letter, a.src - 1) in arcs
  }

  ghost predicate Entry(finals: set<int>, a: Arc) {
    a.src == 0 && a.letter == EPS && a.dst - 1 in finals
  }

  ghost predicate IsReversal(m: Net, r: Net) {
    && Closed(m) && Closed(r) && r.starts == {0}
    && (forall a :: a in r.arcs <==> (Back(m.arcs, a) || Entry(m.finals, a)) && !Loop(a))
    && (forall q :: q in r.finals <==> q - 1 in m.starts)
  }

  lemma ArcBack(m: Net, r: Net, a: Arc)
    requires IsReversal(m, r) && a in m.arcs
    ensures a.src >= 0 && a.dst >= 0
    ensures !Loop(a) ==> Arc(a.dst + 1, a.letter, a.src + 1) in r.arcs
  {
    assert Back(m.arcs, Arc(a.dst + 1, a.letter, a.src + 1));
  }

  lemma BackArc(m: Net, r: Net, a: Arc)
    requires IsReversal(m, r) && a in r.arcs
    ensures a.dst > 0 && a.src >= 0
    ensures if a.src == 0 then a.letter == EPS && a.dst - 1 in m.finals
                               else Arc(a.dst - 1, a.letter, a.src - 1) in m.arcs
  {
  }

  lemma EntryArc(m: Net, r: Net, f: int)
    requires IsReversal(m, r) && f in m.finals
    ensures Arc(0, EPS, f + 1) in r.arcs && f >= 0
  {
    assert Entry(m.finals, Arc(0, EPS, f + 1));
  }

  // A path of the net, the other way round.
  lemma {:induction false} PathBack(m: Net, r: Net, p: int, path: seq<Arc>, q: int) returns (back: seq<Arc>)
    requires IsReversal(m, r) && Path(m.arcs, p, path, q)
    ensures Path(r.arcs, q + 1, back, p + 1) && Word(back) == Backwards(Word(path))
    decreases path
  {
    hide IsReversal, Loop;
    if path == [] {
      back := [];
    } else {
      var a := path[0];
      var rest := PathBack(m, r, a.dst, path[1..], q);
      BackwardsCons(a.letter, Word(path[1..]));
      ArcBack(m, r, a);
      if Loop(a) {
        LoopIsEps(a);
        back := rest;
      } else {
        var a' := Arc(a.dst + 1, a.letter, a.src + 1);
        back := rest + [a'];
        PathSnoc(r.arcs, q + 1, rest, a');
      }
    }
  }

  lemma LoopIsEps(a: Arc)
    ensures Loop(a) ==> a.letter == EPS && a.src == a.dst
  {
  }

  lemma BackwardsCons(l: Letter, w: seq<Letter>)
    ensures Backwards((if l == EPS then [] else [l]) + w) == Backwards(w) + (if l == EPS then [] else [l])
  {
    BackwardsConcat(if l == EPS then [] else [l], w);
    OneLetter(l);
  }

  lemma OneLetter(l: Letter)
    ensures Backwards([l]) == [l]
  {
    assert [l][1..] == [];
  }

  // And back: a path that does not begin at the new start state.
  lemma {:induction false} BackPath(m: Net, r: Net, q: int, back: seq<Arc>, p: int) returns (path: seq<Arc>)
    requires IsReversal(m, r) && Path(r.arcs, q, back, p) && q > 0
    ensures p > 0 && Path(m.arcs, p - 1, path, q - 1) && Word(path) == Backwards(Word(back))
    decreases back
  {
    hide IsReversal;
    if back == [] {
      path := [];
    } else {
      var a := back[0];
      BackArc(m, r, a);
      var rest := BackPath(m, r, a.dst, back[1..], p);
      var a' := Arc(a.dst - 1, a.letter, a.src - 1);
      BackwardsCons(a.letter, Word(back[1..]));
      path := rest + [a'];
      PathSnoc(m.arcs, p - 1, rest, a');
    }
  }

  // Which states the reversed net reaches on w: those from which the net
  // accepts w read backwards; and the start state on nothing.
  lemma ReachedBack(m: Net, r: Net, w: seq<Letter>, q: int)
    requires IsReversal(m, r) && q > 0
    ensures Spells(r.arcs, 0, w, q) <==> exists f :: f in m.finals && Spells(m.arcs, q - 1, Backwards(w), f)
  {
    hide IsReversal, Spells, Backwards;
    if Spells(r.arcs, 0, w, q) {
      var f := EnteredAt(m, r, w, q);
    }
    if f :| f in m.finals && Spells(m.arcs, q - 1, Backwards(w), f) {
      EnterAt(m, r, w, q, f);
    }
  }

  lemma EnteredAt(m: Net, r: Net, w: seq<Letter>, q: int) returns (f: int)
    requires IsReversal(m, r) && q > 0 && Spells(r.arcs, 0, w, q)
    ensures f in m.finals && Spells(m.arcs, q - 1, Backwards(w), f)
  {
    hide IsReversal, Backwards;
    var back :| Path(r.arcs, 0, back, q) && Word(back) == w;
    var a := back[0];
    BackArc(m, r, a);
    assert back == [a] + back[1..];
    WordCons(a, back[1..]);
    hide Word;
    assert [] + Word(back[1..]) == Word(back[1..]) == w;
    var path := BackPath(m, r, a.dst, back[1..], q);
    f := a.dst - 1;
    assert Path(m.arcs, q - 1, path, f) && Word(path) == Backwards(w);
  }

  lemma EnterAt(m: Net, r: Net, w: seq<Letter>, q: int, f: int)
    requires IsReversal(m, r) && q > 0 && f in m.finals && Spells(m.arcs, q - 1, Backwards(w), f)
    ensures Spells(r.arcs, 0, w, q)
  {
    hide IsReversal, Backwards, Word;
    var path :| Path(m.arcs, q - 1, path, f) && Word(path) == Backwards(w);
    var back := PathBack(m, r, q - 1, path, f);
    BackwardsTwice(w);
    var a := Arc(0, EPS, f + 1);
    EntryArc(m, r, f);
    WordCons(a, back);
    assert ([a] + back)[1..] == back;
    assert Path(r.arcs, 0, [a] + back, q);
  }

  lemma OnlyAtOnce(m: Net, r: Net, w: seq<Letter>)
    requires IsReversal(m, r)
    ensures Spells(r.arcs, 0, w, 0) <==> w == []
  {
    if Spells(r.arcs, 0, w, 0) {
      var back: seq<Arc> :| Path(r.arcs, 0, back, 0) && Word(back) == w;
      if back != [] {
        BackArc(m, r, back[0]);
        var path := BackPath(m, r, back[0].dst, back[1..], 0);
      }
    }
    assert Path(r.arcs, 0, [], 0) && Word([]) == [];
  }

  lemma ReversalLanguage(m: Net, r: Net, w: seq<Letter>)
    requires IsReversal(m, r)
    ensures Accepts(r, w) <==> Accepts(m, Backwards(w))
  {
    if Accepts(r, w) {
      var s, q :| s in r.starts && q in r.finals && Spells(r.arcs, s, w, q);
      assert q - 1 in m.starts;
      ReachedBack(m, r, w, q);
    }
    if Accepts(m, Backwards(w)) {
      var s, f :| s in m.starts && f in m.finals && Spells(m.arcs, s, Backwards(w), f);
      ReachedBack(m, r, w, s + 1);
      assert s + 1 in r.finals;
    }
  }

  // ---- fsm_reverse ----

  method FsmReverse(t: seq<Line>, n: nat) returns (out: seq<Line>, states: nat)
    requires IsTable(t, n)
    ensures IsNet(out, states) && Ascending(out) && StartsOf(out) == {0}
    ensures if FinalsOf(t) != {} && StartsOf(t) != {} then IsReversal(Meaning(t, n), Meaning(out, states))
            else out == [EMPTY_LINE] && states == 1
    ensures forall w :: Accepts(Meaning(out, states), w) <==> Accepts(Meaning(t, n), Backwards(w))
  {
    hide IsTable, ArcsOf, FinalsOf, StartsOf, Lists, Has, Loop, AnyFinal, AnyInitial, Idle, Accepts, IsReversal,
         IsBuilt;
    TableLines(t, n);
    var inh := ReadInit(t, n);
    var revh := new ConstructHandle();
    TurnArcs(inh, revh, t, n);
    TurnFinals(inh, revh, t);
    TurnInitials(inh, revh, t);
    revh.SetInitial(0);
    TurnedFlags(revh.stateList, t, n);
    out, states := revh.Done();
    EmptyTable();
    if FinalsOf(t) != {} && StartsOf(t) != {} {
      Turned(t, n, out, states, revh.stateList);
      ReversalStarts(Meaning(t, n), Meaning(out, states));
      forall w ensures Accepts(Meaning(out, states), w) <==> Accepts(Meaning(t, n), Backwards(w)) {
        ReversalLanguage(Meaning(t, n), Meaning(out, states), w);
      }
    } else {
      NothingAccepted(t, n);
    }
  }

  // What fsm_construct_done looks at.
  lemma TurnedFlags(list: seq<StateEntry>, t: seq<Line>, n: nat)
    requires forall i :: 0 <= i < |t| ==> LineOK(t[i], n)
    requires forall a :: Has(list, a) <==> Back(ArcsOf(t), a) || Entry(FinalsOf(t), a)
    requires forall q :: (IsFinal(list, q) <==> q - 1 in StartsOf(t)) && (IsInitial(list, q) <==> q == 0)
    ensures AnyInitial(list) && (AnyFinal(list) <==> StartsOf(t) != {}) && (Idle(list) <==> FinalsOf(t) == {})
  {
    assert IsInitial(list, 0);
    if s :| s in StartsOf(t) {
      assert IsFinal(list, s + 1);
    }
    assert !IsFinal(list, 0);
    if f :| f in FinalsOf(t) {
      var a := Arc(0, EPS, f + 1);
      assert Entry(FinalsOf(t), a) && Has(list, a);
      assert list[0].trans != [] && list[0].isInitial;
    } else {
      if list[0].trans != [] {
        var x := list[0].trans[0];
        var a := Arc(0, Letter(x.inp, x.outp), x.target);
        assert a in ArcsFrom(0, list[0].trans);
        assert Has(list, a);
      }
      forall q | 0 <= q < |list| && list[q].isInitial ensures !list[q].isFinal && list[q].trans == [] {
        assert IsInitial(list, q);
      }
    }
  }

  lemma Turned(t: seq<Line>, n: nat, out: seq<Line>, states: nat, list: seq<StateEntry>)
    requires IsTable(t, n) && IsTable(out, states) && IsBuilt(list, out)
    requires forall a :: Has(list, a) <==> Back(ArcsOf(t), a) || Entry(FinalsOf(t), a)
    requires forall q :: (IsFinal(list, q) <==> q - 1 in StartsOf(t)) && (IsInitial(list, q) <==> q == 0)
    ensures IsReversal(Meaning(t, n), Meaning(out, states))
  {
    hide IsTable, Has, Loop, Back, Entry, ArcsOf, FinalsOf, StartsOf;
    TableIsClosed(t, n);
    TableIsClosed(out, states);
    hide Closed;
    forall q ensures q in StartsOf(out) <==> q == 0 {
    }
    assert StartsOf(out) == {0};
  }

  lemma ReversalStarts(m: Net, r: Net)
    requires IsReversal(m, r)
    ensures r.starts == {0}
  {
  }

  lemma NothingAccepted(t: seq<Line>, n: nat)
    requires FinalsOf(t) == {} || StartsOf(t) == {}
    ensures forall w :: !Accepts(Meaning(t, n), w) && !Accepts(Meaning([EMPTY_LINE], 1), w)
  {
    EmptyTable();
  }

  method TurnArcs(inh: ReadHandle, revh: ConstructHandle, ghost t: seq<Line>, ghost n: nat)
    requires inh.Valid() && inh.t == t && inh.arcsCursor == -1 && revh.Valid() && revh.maxstate == -1
    requires (forall i :: 0 <= i < |t| ==> LineOK(t[i], n)) && forall a :: !Has(revh.stateList, a)
    modifies inh`arcsCursor, revh
    ensures inh.Valid() && revh.Valid()
    ensures forall a :: Has(revh.stateList, a) <==> Back(ArcsOf(t), a)
    ensures forall q :: (IsFinal(revh.stateList, q) <==> old(IsFinal(revh.stateList, q)))
                        && (IsInitial(revh.stateList, q) <==> old(IsInitial(revh.stateList, q)))
  {
    hide ArcsOf, FinalsOf, StartsOf, Lists, Has, AnyFinal, AnyInitial, ListOK;
    NoLines(t[..0]);
    var more := inh.NextArc();
    ghost var seen := {};
    while more
      invariant inh.Valid() && revh.Valid()
      invariant if more then 0 <= inh.arcsCursor < |t| && t[inh.arcsCursor].target != -1
                             && ArcsOf(inh.Seen()) == seen + {LineArc(t[inh.arcsCursor])}
                else seen == ArcsOf(t)
      invariant forall a :: Has(revh.stateList, a) <==> Back(seen, a)
      invariant forall q :: (IsFinal(revh.stateList, q) <==> old(IsFinal(revh.stateList, q)))
                            && (IsInitial(revh.stateList, q) <==> old(IsInitial(revh.stateList, q)))
      decreases |t| - inh.arcsCursor, more
    {
      var l := inh.states[inh.arcsCursor];
      assert l == t[inh.arcsCursor];
      revh.AddArcNums(l.target + 1, l.state + 1, l.inp, l.outp);
      seen := seen + {LineArc(l)};
      more := inh.NextArc();
    }
  }

  method TurnFinals(inh: ReadHandle, revh: ConstructHandle, ghost t: seq<Line>)
    requires inh.Valid() && inh.t == t && inh.finalsCursor == -1 && revh.Valid() && inh.initialsCursor == -1
    requires forall a :: Has(revh.stateList, a) <==> Back(ArcsOf(t), a)
    modifies inh`finalsCursor, revh
    ensures inh.Valid() && revh.Valid()
    ensures forall a :: Has(revh.stateList, a) <==> Back(ArcsOf(t), a) || Entry(FinalsOf(t), a)
    ensures forall q :: (IsFinal(revh.stateList, q) <==> old(IsFinal(revh.stateList, q)))
                        && (IsInitial(revh.stateList, q) <==> old(IsInitial(revh.stateList, q)))
  {
    hide ArcsOf, FinalsOf, StartsOf, Has, AnyFinal, AnyInitial, ListOK, Back;
    var i := inh.NextFinal();
    while i != -1
      invariant inh.Valid() && revh.Valid() && inh.finalsCursor >= 0 && i == inh.finals[inh.finalsCursor]
      invariant forall a :: Has(revh.stateList, a) <==> Back(ArcsOf(t), a)
                                                        || Entry(Elements(inh.finals[..inh.finalsCursor]), a)
      invariant forall q :: (IsFinal(revh.stateList, q) <==> old(IsFinal(revh.stateList, q)))
                            && (IsInitial(revh.stateList, q) <==> old(IsInitial(revh.stateList, q)))
      decreases |inh.finals| - inh.finalsCursor
    {
      revh.AddArcNums(0, i + 1, EPSILON, EPSILON);
      assert inh.finals[..inh.finalsCursor + 1] == inh.finals[..inh.finalsCursor] + [i];
      i := inh.NextFinal();
    }
  }

  method TurnInitials(inh: ReadHandle, revh: ConstructHandle, ghost t: seq<Line>)
    requires inh.Valid() && inh.t == t && inh.initialsCursor == -1 && revh.Valid()
    requires forall q :: !IsFinal(revh.stateList, q)
    modifies inh`initialsCursor, revh
    ensures revh.Valid()
    ensures forall a :: Has(revh.stateList, a) <==> old(Has(revh.stateList, a))
    ensures forall q :: (IsFinal(revh.stateList, q) <==> q - 1 in StartsOf(t))
                        && (IsInitial(revh.stateList, q) <==> old(IsInitial(revh.stateList, q)))
  {
    hide ArcsOf, FinalsOf, StartsOf, Has, AnyFinal, AnyInitial, ListOK;
    var i := inh.NextInitial();
    while i != -1
      invariant inh.Valid() && revh.Valid() && inh.initialsCursor >= 0 && i == inh.initials[inh.initialsCursor]
      invariant forall a :: Has(revh.stateList, a) <==> old(Has(revh.stateList, a))
      invariant forall q :: IsFinal(revh.stateList, q) <==> q - 1 in inh.initials[..inh.initialsCursor]
      invariant forall q :: IsInitial(revh.stateList, q) <==> old(IsInitial(revh.stateList, q))
      decreases |inh.initials| - inh.initialsCursor
    {
      revh.SetFinal(i + 1);
      assert inh.initials[..inh.initialsCursor + 1] == inh.initials[..inh.initialsCursor] + [i];
      i := inh.NextInitial();
    }
  }
}
