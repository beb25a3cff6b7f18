// What an agenda entry promises (minimize.c): an entry with index 0 stands for
// all symbols, one with index 1 for the symbols after the cursors of its states.

module Schedule {
  import opened Nets
  import opened Counting
  import opened Nerode
  import opened Splitters
  import opened Blocks
  import opened Refine
  import opened Transitions
  import opened Widths
  import opened Inverse
  import opened Hopcroft

  ghost predicate BlockScheduled(A: seq<Entry>, P: seq<Block>, cls: seq<int>, thr: seq<int>, tr: seq<TransArray>,
                                 b: int)
    requires 0 <= b < |thr| <= |P| && |tr| == |cls|
  {
    if P[b].agenda == NULL then thr[b] == INT_MAX
    else
      && 0 <= P[b].agenda < |A|
      && -1 <= thr[b] < INT_MAX
      && (!A[P[b].agenda].resume ==> thr[b] == -1)
      && (A[P[b].agenda].resume ==> forall x :: 0 <= x < |cls| && cls[x] == b ==> CursorAt(tr[x], thr[b], thr[b] + 1))
  }

  // All blocks but w, the one being used.
  ghost predicate Scheduled(A: seq<Entry>, P: seq<Block>, cls: seq<int>, thr: seq<int>, tr: seq<TransArray>, w: int) {
    |thr| <= |P| && |tr| == |cls| && forall b :: 0 <= b < |thr| && b != w ==> BlockScheduled(A, P, cls, thr, tr, b)
  }

  lemma SplitKeepsSchedule(A: seq<Entry>, P: seq<Block>, cls: seq<int>, thr: seq<int>, tr: seq<TransArray>, w: int,
                           a0: nat,
                           A': seq<Entry>, P': seq<Block>, cls': seq<int>, thr': seq<int>, tr': seq<TransArray>,
                           X: set<int>, c: int, selfsplit: bool)
    requires Scheduled(A, P, cls, thr, tr, w) && IsSplit(cls, |thr|, X, cls')
    requires |thr| <= |thr'| <= |P'| && |tr'| == |tr| && a0 <= |A| == |A'| && A'[..a0] == A[..a0]
    requires 0 <= w < |thr| && thr'[w] == c && 0 <= c < INT_MAX
    requires forall b :: 0 <= b < |thr| && b != w ==> thr'[b] == thr[b] && P'[b].agenda == P[b].agenda < a0
    requires forall s :: |thr| <= s < |thr'| ==> thr'[s] == -1 && 0 <= P'[s].agenda < |A'| && !A'[P'[s].agenda].resume
    requires forall x :: 0 <= x < |cls| && cls[x] != w ==> tr'[x] == tr[x]
    requires forall x :: 0 <= x < |cls| && cls[x] == w ==> CursorAt(tr'[x], c, c + 1)
    requires selfsplit ==> 0 <= P'[w].agenda < |A'| && A'[P'[w].agenda].resume
    ensures Scheduled(A', P', cls', thr', tr', if selfsplit then NULL else w)
  {
    forall b | 0 <= b < |thr'| && b != (if selfsplit then NULL else w)
      ensures BlockScheduled(A', P', cls', thr', tr', b) {
      if b < |thr| && b != w {
        assert BlockScheduled(A, P, cls, thr, tr, b);
        if P[b].agenda != NULL {
          assert A'[P[b].agenda] == A'[..a0][P[b].agenda] == A[P[b].agenda];
        }
      }
    }
  }

  lemma PoppedKeepsSchedule(A: seq<Entry>, P: seq<Block>, cls: seq<int>, thr: seq<int>, tr: seq<TransArray>, w: int,
                            P': seq<Block>)
    requires Scheduled(A, P, cls, thr, tr, NULL) && |P'| == |P|
    requires forall b :: 0 <= b < |P| && b != w ==> P'[b] == P[b]
    ensures Scheduled(A, P', cls, thr, tr, w)
  {
    forall b | 0 <= b < |thr| && b != w ensures BlockScheduled(A, P', cls, thr, tr, b) {
      assert BlockScheduled(A, P, cls, thr, tr, b);
    }
  }

  lemma UsingKeepsSchedule(A: seq<Entry>, P: seq<Block>, cls: seq<int>, thr: seq<int>, tr: seq<TransArray>, w: int,
                           thr': seq<int>, tr': seq<TransArray>)
    requires Scheduled(A, P, cls, thr, tr, w) && 0 <= w < |thr| && |tr'| == |tr|
    requires |thr'| == |thr| && forall b :: 0 <= b < |thr| && b != w ==> thr'[b] == thr[b]
    requires forall x :: 0 <= x < |cls| && cls[x] != w ==> tr'[x] == tr[x]
    ensures Scheduled(A, P, cls, thr', tr', w)
  {
    forall b | 0 <= b < |thr'| && b != w ensures BlockScheduled(A, P, cls, thr', tr', b) {
      assert BlockScheduled(A, P, cls, thr, tr, b);
    }
  }

  // Symbols before the cursors of class w have been used, those from hi on are
  // still to come; there is nothing in between.
  lemma CursorsLeaveNothing(d: Delta, cls: seq<int>, tr: seq<TransArray>, w: int, lo: int, hi: int)
    requires DeltaOK(d, |cls|) && |tr| == |cls| && InverseOK(tr, d)
    requires forall x :: 0 <= x < |cls| && cls[x] == w ==> CursorAt(tr[x], lo, hi)
    ensures NothingBetween(d, cls, w, lo, hi)
  {
    forall k | k in d && cls[d[k]] == w ensures k.1 <= lo || hi <= k.1 {
      var x := d[k];
      var y := Trans(k.1, k.0);
      assert (y.other, y.sym) == k;
      assert y in tr[x].transitions;
      var i :| 0 <= i < |tr[x].transitions| && tr[x].transitions[i] == y;
    }
  }

  // When the partition collapses to singletons every two states differ.
  lemma SingletonsReduced(m: Net, num: map<Letter, int>, d: Delta, cls: seq<int>, E0: seq<Elem>, w: int, a: int,
                          X: set<int>)
    requires Deterministic(m) && Trim(m) && Encodes(m, num, d) && Justified(m, cls)
    requires cls == Groups(E0) && IsPreimage(d, cls, w, a, X) && SplitApart(E0, X)
    ensures Reduced(m)
  {
    forall p, q | 0 <= p < m.states && 0 <= q < m.states && p != q ensures Inequivalent(m, p, q) {
      if cls[p] == cls[q] {
        assert E0[p].group == E0[q].group;
        if p in X {
          SplitterSeparates(m, num, d, cls, w, a, X, p, q);
        } else {
          SplitterSeparates(m, num, d, cls, w, a, X, q, p);
          InequivalentSymmetric(m, q, p);
        }
      }
    }
  }

  lemma TrivialSplit(cls: seq<int>, blocks: nat)
    ensures IsSplit(cls, blocks, {}, cls)
  {
  }

  lemma GatheredIsPreimage(d: Delta, cls: seq<int>, E: seq<Elem>, group: seq<int>, w: int, c: int, X: set<int>)
    requires DeltaOK(d, |cls|) && cls == Groups(E)
    requires Gathered(d, group, c, X) && Elements(group) == Members(E, w)
    ensures IsPreimage(d, cls, w, c, X)
  {
    forall p ensures p in X <==> 0 <= p < |cls| && (p, c) in d && 0 <= d[(p, c)] < |cls| && cls[d[(p, c)]] == w {
      if (p, c) in d {
        assert d[(p, c)] in group <==> d[(p, c)] in Elements(group);
      }
    }
  }
}
