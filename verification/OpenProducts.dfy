// fsm_intersect, fsm_minus and fsm_compose (constructions.c) from fsm_merge_sigma
// on: two deterministic nets with alphabets of their own, and what the result
// accepts over any symbols, known to one of them, to both or to none.

module OpenProducts {
  import opened Nets
  import opened Alphabets
  import opened Pointers
  import opened MergeNets
  import opened TripletHash
  import Compaction
  import Compose
  import Composition
  import Explore
  import Intersect
  import Minimization
  import Minus
  import Order
  import Relations

  // A net in memory with its alphabet, as minimization leaves it.
  ghost predicate Operand(fsm: array<Line>, t: seq<Line>, n: nat, s: seq<Sym>)
    reads fsm
  {
    NetOver(fsm, t, n, s) && IsNet(t, n) && Deterministic(Meaning(t, n))
  }

  lemma LinesMatched(t: seq<Line>, n: nat, s: seq<Sym>)
    requires forall i :: 0 <= i < |t| ==> LineInSigma(s, t[i])
    ensures MatchedArcs(Meaning(t, n))
  {
    forall a | a in ArcsOf(t) ensures Matched(a.letter) {
      var i :| 0 <= i < |t| && t[i].target != -1 && LineArc(t[i]) == a;
    }
  }

  // ---- From words over one alphabet to pairs of symbols ----

  lemma BothOpen(m1: Net, m2: Net, k: Net, s: seq<Sym>, w: seq<Pair>)
    requires SigmaOK(s) && MatchedArcs(m1) && MatchedArcs(m2)
    requires forall ls :: Accepts(k, ls) <==> Accepts(m1, ls) && Accepts(m2, ls)
    ensures OpenAccepts(k, s, w) <==> OpenAccepts(m1, s, w) && OpenAccepts(m2, s, w)
  {
    hide Accepts, SigmaOK, MatchedArcs, Reads, Coded;
    OpenIsCoded(m1, s, w);
    OpenIsCoded(m2, s, w);
    CodedReads(s, w);
  }

  lemma FirstOnlyOpen(m1: Net, m2: Net, k: Net, s: seq<Sym>, w: seq<Pair>)
    requires SigmaOK(s) && MatchedArcs(m1) && MatchedArcs(m2)
    requires forall ls :: Accepts(k, ls) <==> Accepts(m1, ls) && !Accepts(m2, ls)
    ensures OpenAccepts(k, s, w) <==> OpenAccepts(m1, s, w) && !OpenAccepts(m2, s, w)
  {
    hide Accepts, SigmaOK, MatchedArcs, Reads, Coded, AllMatched;
    OpenIsCoded(m1, s, w);
    OpenIsCoded(m2, s, w);
    CodedReads(s, w);
    if ls :| Accepts(k, ls) && Reads(s, ls, w) {
      AcceptsMatched(m1, ls);
      CodedAlone(s, ls, w);
    }
  }

  lemma OpenKept(p: Net, k: Net, s: seq<Sym>, w: seq<Pair>)
    requires SameLanguage(p, k)
    ensures OpenAccepts(p, s, w) <==> OpenAccepts(k, s, w)
  {
    hide Accepts, Reads;
  }

  lemma OpenAgrees(m: Net, s: seq<Sym>, k: Net, s': seq<Sym>, w: seq<Pair>)
    requires SameOpen(m, s, k, s')
    ensures OpenAccepts(m, s, w) <==> OpenAccepts(k, s', w)
  {
    hide OpenAccepts;
  }

  // ---- The operations ----

  lemma FinalProductive(space: Explore.Space, p: Net, keys: seq<Triple>)
    requires Explore.IsExplored(space, p, keys) && p.finals != {}
    ensures Productive(p, 0)
  {
    assert (forall f :: f !in p.finals) ==> p.finals == {};
    var f :| f in p.finals;
    assert Reachable(p, f);
  }

  lemma NothingAccepted(p: Net, k: Net)
    requires p.finals == {} && k.finals == {}
    ensures SameLanguage(p, k)
  {
  }

  lemma EmptyFinals()
    ensures FinalsOf([EMPTY_LINE]) == {}
  {
  }

  // The product, trimmed.
  method TrimProduct(t: seq<Line>, n: nat, ghost space: Explore.Space, ghost keys: seq<Triple>)
    returns (out: array<Line>, lines: nat, states: nat)
    requires IsNet(t, n) && Order.InOrder(t) && Explore.IsExplored(space, Meaning(t, n), keys)
    ensures fresh(out) && lines < out.Length && out[lines].state == -1
    ensures SameLanguage(Meaning(t, n), Meaning(out[..lines], states))
    ensures if FinalsOf(t) == {} then out[..lines] == [EMPTY_LINE]
            else IsTable(out[..lines], states) && Trim(Meaning(out[..lines], states))
  {
    hide IsTable, Grouped, Order.InOrder, Explore.IsExplored, Trim, SameLanguage, Productive, FinalsOf;
    var fsm := Minimization.WithSentinel(t);
    out, lines, states := Compaction.FsmCoaccessible(fsm, n, t);
    if FinalsOf(t) == {} {
      EmptyFinals();
      NothingAccepted(Meaning(t, n), Meaning(out[..lines], states));
    } else {
      FinalProductive(space, Meaning(t, n), keys);
    }
  }

  // fsm_intersect: a string of symbol pairs is accepted if both nets accept it.
  method IntersectNets(fsm1: array<Line>, n1: nat, s1: seq<Sym>, fsm2: array<Line>, n2: nat, s2: seq<Sym>,
                       ghost t1: seq<Line>, ghost t2: seq<Line>)
    returns (sigma: seq<Sym>, out: array<Line>, lines: nat, states: nat)
    requires fsm1 != fsm2 && Operand(fsm1, t1, n1, s1) && Operand(fsm2, t2, n2, s2) && Mergeable(s1, s2)
    modifies fsm1, fsm2
    ensures SigmaOK(sigma) && forall x :: Known(sigma, x) <==> Known(s1, x) || Known(s2, x)
    ensures lines < out.Length && out[lines].state == -1
    ensures out[..lines] == [EMPTY_LINE] || (IsTable(out[..lines], states) && Trim(Meaning(out[..lines], states)))
    ensures forall w :: OpenAccepts(Meaning(out[..lines], states), sigma, w) <==>
                        OpenAccepts(Meaning(t1, n1), s1, w) && OpenAccepts(Meaning(t2, n2), s2, w)
  {
    hide IsTable, SigmaOK, LineInSigma, SameOpen, Known, Deterministic, Explore.IsExplored, Accepts, OpenAccepts, IsNet,
         Order.InOrder, Trim, SameLanguage, MatchedArcs, Mergeable;
    var out1, lines1, out2, lines2;
    sigma, out1, lines1, out2, lines2 := FsmMergeSigma(fsm1, s1, fsm2, s2, t1, n1, t2, n2);
    var u1, u2 := out1[..lines1], out2[..lines2];
    LinesMatched(u1, n1, sigma);
    LinesMatched(u2, n2, sigma);
    var t, n;
    ghost var keys;
    t, n, keys := Intersect.FsmIntersect(u1, n1, u2, n2);
    ghost var m1, m2, p := Meaning(u1, n1), Meaning(u2, n2), Meaning(t, n);
    out, lines, states := TrimProduct(t, n, Intersect.Both(m1, m2), keys);
    ghost var k := Meaning(out[..lines], states);
    forall w ensures OpenAccepts(k, sigma, w) <==>
                     OpenAccepts(Meaning(t1, n1), s1, w) && OpenAccepts(Meaning(t2, n2), s2, w) {
      OpenKept(p, k, sigma, w);
      BothOpen(m1, m2, p, sigma, w);
      OpenAgrees(Meaning(t1, n1), s1, m1, sigma, w);
      OpenAgrees(Meaning(t2, n2), s2, m2, sigma, w);
    }
  }

  // fsm_minus, before the result is minimized: a string of symbol pairs is
  // accepted if the first net accepts it and the second does not.
  method MinusNets(fsm1: array<Line>, n1: nat, s1: seq<Sym>, fsm2: array<Line>, n2: nat, s2: seq<Sym>,
                   ghost t1: seq<Line>, ghost t2: seq<Line>)
    returns (sigma: seq<Sym>, out: seq<Line>, states: nat)
    requires fsm1 != fsm2 && Operand(fsm1, t1, n1, s1) && Operand(fsm2, t2, n2, s2) && Mergeable(s1, s2)
    modifies fsm1, fsm2
    ensures SigmaOK(sigma) && forall x :: Known(sigma, x) <==> Known(s1, x) || Known(s2, x)
    ensures IsNet(out, states) && Order.InOrder(out)
    ensures forall w :: OpenAccepts(Meaning(out, states), sigma, w) <==>
                        OpenAccepts(Meaning(t1, n1), s1, w) && !OpenAccepts(Meaning(t2, n2), s2, w)
  {
    hide IsTable, SigmaOK, LineInSigma, SameOpen, Known, Deterministic, Explore.IsExplored, Accepts, OpenAccepts, IsNet,
         Order.InOrder, MatchedArcs, Mergeable;
    var out1, lines1, out2, lines2;
    sigma, out1, lines1, out2, lines2 := FsmMergeSigma(fsm1, s1, fsm2, s2, t1, n1, t2, n2);
    var u1, u2 := out1[..lines1], out2[..lines2];
    LinesMatched(u1, n1, sigma);
    LinesMatched(u2, n2, sigma);
    ghost var keys;
    out, states, keys := Minus.FsmMinus(u1, n1, u2, n2);
    ghost var m1, m2, k := Meaning(u1, n1), Meaning(u2, n2), Meaning(out, states);
    forall w ensures OpenAccepts(k, sigma, w) <==>
                     OpenAccepts(Meaning(t1, n1), s1, w) && !OpenAccepts(Meaning(t2, n2), s2, w) {
      FirstOnlyOpen(m1, m2, k, sigma, w);
      OpenAgrees(Meaning(t1, n1), s1, m1, sigma, w);
      OpenAgrees(Meaning(t2, n2), s2, m2, sigma, w);
    }
  }

  // sigma_max, or the number of @ if all are below it.
  method SigmaMax(s: seq<Sym>) returns (last: nat)
    ensures last >= IDENTITY && forall n :: HasNumber(s, n) ==> n <= last
  {
    last := IDENTITY;
    for i := 0 to |s|
      invariant last >= IDENTITY && forall k :: 0 <= k < i ==> s[k].number <= last
    {
      if s[i].number > last {
        last := s[i].number;
      }
    }
  }

  lemma LinesCompose(t: seq<Line>, n: nat, s: seq<Sym>, last: nat)
    requires (forall i :: 0 <= i < |t| ==> LineInSigma(s, t[i])) && forall m :: HasNumber(s, m) ==> m <= last
    ensures Relations.LettersOK(Meaning(t, n), s) && Compose.SymbolsOK(Meaning(t, n), last + 1)
  {
    hide HasNumber;
    forall a | a in ArcsOf(t) ensures LetterOK(s, a.letter) {
      var i :| 0 <= i < |t| && t[i].target != -1 && LineArc(t[i]) == a;
    }
  }

  lemma ComposesOn(m1: Net, s1: seq<Sym>, u1: Net, m2: Net, s2: seq<Sym>, u2: Net, s: seq<Sym>, x: seq<string>,
                   y: seq<string>)
    requires SameOpen(m1, s1, u1, s) && SameOpen(m2, s2, u2, s)
    ensures Relations.Composes(m1, s1, m2, s2, s, x, y) <==> Relations.Composes(u1, s, u2, s, s, x, y)
  {
    hide OpenAccepts, Relations.Passing;
    if wa, wb :| Relations.Joins(m1, s1, m2, s2, wa, wb) && Relations.Passing(s, wa, wb) && Inputs(wa) == x
                 && Outputs(wb) == y {
      assert Relations.Joins(u1, s, u2, s, wa, wb);
    }
    if wa, wb :| Relations.Joins(u1, s, u2, s, wa, wb) && Relations.Passing(s, wa, wb) && Inputs(wa) == x
                 && Outputs(wb) == y {
      assert Relations.Joins(m1, s1, m2, s2, wa, wb);
    }
  }

  lemma RelatesKept(p: Net, k: Net, s: seq<Sym>, x: seq<string>, y: seq<string>)
    requires SameLanguage(p, k)
    ensures OpenRelates(p, s, x, y) <==> OpenRelates(k, s, x, y)
  {
    hide SameLanguage, OpenAccepts;
    forall w ensures OpenAccepts(p, s, w) <==> OpenAccepts(k, s, w) {
      OpenKept(p, k, s, w);
    }
  }

  // fsm_compose: a string of symbols is related to another by way of a third,
  // without the return of a symbol unknown to both nets.
  method ComposeNets(fsm1: array<Line>, n1: nat, s1: seq<Sym>, fsm2: array<Line>, n2: nat, s2: seq<Sym>,
                     ghost t1: seq<Line>, ghost t2: seq<Line>)
    returns (sigma: seq<Sym>, out: array<Line>, lines: nat, states: nat)
    requires fsm1 != fsm2 && Operand(fsm1, t1, n1, s1) && Operand(fsm2, t2, n2, s2) && Mergeable(s1, s2)
    requires DistinctLines(t2)
    modifies fsm1, fsm2
    ensures SigmaOK(sigma) && forall x :: Known(sigma, x) <==> Known(s1, x) || Known(s2, x)
    ensures lines < out.Length && out[lines].state == -1
    ensures out[..lines] == [EMPTY_LINE] || (IsTable(out[..lines], states) && Trim(Meaning(out[..lines], states)))
    ensures forall x, y :: OpenRelates(Meaning(out[..lines], states), sigma, x, y) <==>
                           Relations.Composes(Meaning(t1, n1), s1, Meaning(t2, n2), s2, sigma, x, y)
  {
    hide IsTable, SigmaOK, LineInSigma, SameOpen, Known, Deterministic, Explore.IsExplored, Accepts, OpenAccepts, IsNet,
         Order.InOrder, Trim, SameLanguage, Mergeable, DistinctLines, HasNumber, Relations.Composes, OpenRelates,
         Relations.LettersOK, Compose.SymbolsOK;
    var out1, lines1, out2, lines2;
    sigma, out1, lines1, out2, lines2 := FsmMergeSigma(fsm1, s1, fsm2, s2, t1, n1, t2, n2);
    var u1, u2 := out1[..lines1], out2[..lines2];
    var last := SigmaMax(sigma);
    LinesCompose(u1, n1, sigma, last);
    LinesCompose(u2, n2, sigma, last);
    var t, n;
    ghost var keys;
    t, n, keys := Compose.FsmCompose(u1, n1, u2, n2, last + 1, sigma);
    ghost var m1, m2, p := Meaning(u1, n1), Meaning(u2, n2), Meaning(t, n);
    out, lines, states := TrimProduct(t, n, Composition.Composed(m1, m2), keys);
    forall x, y ensures OpenRelates(Meaning(out[..lines], states), sigma, x, y) <==>
                        Relations.Composes(Meaning(t1, n1), s1, Meaning(t2, n2), s2, sigma, x, y) {
      RelatesKept(p, Meaning(out[..lines], states), sigma, x, y);
      ComposesOn(Meaning(t1, n1), s1, m1, Meaning(t2, n2), s2, m2, sigma, x, y);
    }
  }
}
