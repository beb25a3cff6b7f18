// init_trans_array and memoize_e_closure (determinize.c): the outgoing arcs of
// every state, sorted, and apart from them the 0:0 arcs.  Both read the line
// table once and write a state's entry when the next state's lines begin.

module SubsetTables {
  import opened Nets
  import opened Symbols
  import opened Transitions
  import opened Closure
  import opened Pointers

  // All lines of p come before line i, and other lines follow them.
  ghost predicate Over(t: seq<Line>, i: nat, p: int)
    requires i <= |t|
  {
    exists j, k :: 0 <= j < k < i && t[j].state == p && t[k].state != p
  }

  lemma NotOver(t: seq<Line>, i: nat)
    requires i < |t| && Grouped(t)
    ensures !Over(t, i + 1, t[i].state)
  {
  }

  ghost predicate Written<T>(lists: seq<seq<T>>, t: seq<Line>, k: nat)
    requires k <= |t|
  {
    forall p :: 0 <= p < |lists| && lists[p] != [] ==> Over(t, k, p)
  }

  // ---- The 0:0 arcs ----

  ghost predicate EpsilonTo(t: seq<Line>, k: nat, p: int, q: int)
    requires k <= |t|
  {
    exists i :: 0 <= i < k && t[i].target != -1 && LineArc(t[i]) == Arc(p, EPS, q)
  }

  // The lists in memory, with the stack put where it will go.
  function Flushed(targets: seq<seq<int>>, last: int, stack: seq<int>): seq<seq<int>> {
    if stack != [] && 0 <= last < |targets| then targets[last := stack] else targets
  }

  ghost predicate ListsEpsilons(lists: seq<seq<int>>, t: seq<Line>, k: nat)
    requires k <= |t|
  {
    forall p, q :: 0 <= p < |lists| ==> (q in lists[p] <==> EpsilonTo(t, k, p, q) && q != p)
  }

  ghost predicate Checked(redcheck: seq<int>, lists: seq<seq<int>>) {
    forall q :: 0 <= q < |redcheck| && redcheck[q] != -1 ==> 0 <= redcheck[q] < |lists| && q in lists[redcheck[q]]
  }

  // Emptying the stack links the last pushed target first.
  function PopAll(stack: seq<int>): (r: seq<int>)
    ensures |r| == |stack| && forall x :: x in r <==> x in stack
  {
    if stack == [] then []
    else
      assert stack == stack[..|stack| - 1] + [stack[|stack| - 1]];
      [stack[|stack| - 1]] + PopAll(stack[..|stack| - 1])
  }

  ghost predicate Seen(t: seq<Line>, k: nat, p: int)
    requires k <= |t|
  {
    exists i :: 0 <= i < k && t[i].state == p
  }

  // The state of memoize_e_closure after i lines; lists written to memory
  // belong to states that are over before line k.
  ghost predicate Memoizing(targets: seq<seq<int>>, redcheck: seq<int>, stack: seq<int>, last: int, t: seq<Line>,
                            i: nat, k: nat, n: nat)
    requires i <= k <= |t|
  {
    && |targets| == |redcheck| == n && -1 <= last < n && (stack != [] ==> last != -1 && Seen(t, i, last))
    && ListsEpsilons(Flushed(targets, last, stack), t, i) && Checked(redcheck, Flushed(targets, last, stack))
    && Written(targets, t, k)
  }

  lemma StartMemoizing(t: seq<Line>, n: nat)
    ensures Memoizing(seq(n, _ => []), seq(n, _ => -1), [], -1, t, 0, 0, n)
  {
  }

  lemma FlushLists(targets: seq<seq<int>>, redcheck: seq<int>, stack: seq<int>, last: int, t: seq<Line>, i: nat, n: nat)
    requires i <= |t| && Memoizing(targets, redcheck, stack, last, t, i, i, n) && stack != []
    ensures 0 <= last < |targets|
    ensures ListsEpsilons(targets[last := PopAll(stack)], t, i) && Checked(redcheck, targets[last := PopAll(stack)])
  {
    var lists, lists' := Flushed(targets, last, stack), targets[last := PopAll(stack)];
    assert |lists'| == |lists| && forall p :: 0 <= p < |lists| ==> forall q :: q in lists'[p] <==> q in lists[p];
  }

  lemma FlushStack(targets: seq<seq<int>>, redcheck: seq<int>, stack: seq<int>, last: int, t: seq<Line>, i: nat, n: nat)
    requires i < |t| && Memoizing(targets, redcheck, stack, last, t, i, i, n) && stack != [] && t[i].state != last
    ensures 0 <= last < |targets| && Memoizing(targets[last := PopAll(stack)], redcheck, [], last, t, i, i + 1, n)
  {
    FlushLists(targets, redcheck, stack, last, t, i, n);
    var j :| 0 <= j < i && t[j].state == last;
    assert Over(t, i + 1, last);
  }

  lemma NoFlush(targets: seq<seq<int>>, redcheck: seq<int>, stack: seq<int>, last: int, t: seq<Line>, i: nat, n: nat)
    requires i < |t| && Memoizing(targets, redcheck, stack, last, t, i, i, n)
    ensures Memoizing(targets, redcheck, stack, last, t, i, i + 1, n)
  {
  }

  lemma EpsilonNext(t: seq<Line>, i: nat)
    requires i < |t|
    ensures forall p, q :: EpsilonTo(t, i + 1, p, q) <==> EpsilonTo(t, i, p, q)
                                                          || (t[i].target != -1 && LineArc(t[i]) == Arc(p, EPS, q))
  {
    forall p, q ensures EpsilonTo(t, i + 1, p, q) <==> EpsilonTo(t, i, p, q)
                                                       || (t[i].target != -1 && LineArc(t[i]) == Arc(p, EPS, q)) {
      if EpsilonTo(t, i + 1, p, q) {
        var j :| 0 <= j < i + 1 && t[j].target != -1 && LineArc(t[j]) == Arc(p, EPS, q);
      }
    }
  }

  // A line that leaves the lists as they are.
  lemma SkipLine(targets: seq<seq<int>>, redcheck: seq<int>, stack: seq<int>, last: int, t: seq<Line>, i: nat, n: nat,
                 last': int)
    requires i < |t| && Memoizing(targets, redcheck, stack, last, t, i, i + 1, n)
    requires last' == last || (stack == [] && 0 <= last' < n)
    requires t[i].target != -1 && LineArc(t[i]).letter == EPS ==>
               t[i].target == t[i].state || (0 <= t[i].target < n && redcheck[t[i].target] == t[i].state >= 0)
    ensures Memoizing(targets, redcheck, stack, last', t, i + 1, i + 1, n)
  {
    EpsilonNext(t, i);
    if stack != [] {
      var j :| 0 <= j < i && t[j].state == last;
      assert Seen(t, i + 1, last);
    }
  }

  // One more target for the state of line i.
  lemma PushTarget(targets: seq<seq<int>>, redcheck: seq<int>, stack: seq<int>, last: int, t: seq<Line>, i: nat, n: nat)
    requires i < |t| && LineOK(t[i], n) && Grouped(t) && Memoizing(targets, redcheck, stack, last, t, i, i + 1, n)
    requires t[i].target != -1 && LineArc(t[i]).letter == EPS && t[i].target != t[i].state
    requires stack != [] ==> last == t[i].state
    ensures Memoizing(targets, redcheck[t[i].target := t[i].state], stack + [t[i].target], t[i].state, t, i + 1, i + 1,
                      n)
  {
    var s, q := t[i].state, t[i].target;
    EpsilonNext(t, i);
    assert Seen(t, i + 1, s);
    var lists, lists' := Flushed(targets, last, stack), Flushed(targets, s, stack + [q]);
    NotOver(t, i);
    assert targets[s] == [];
    assert forall p, x :: 0 <= p < n ==> (x in lists'[p] <==> x in lists[p] || (p == s && x == q));
  }

  lemma ListsMemoized(targets: seq<seq<int>>, t: seq<Line>, n: nat)
    requires IsTable(t, n) && |targets| == n && ListsEpsilons(targets, t, |t|)
    ensures Memoized(Meaning(t, n), targets)
  {
    forall p, q | 0 <= p < n
      ensures EpsilonTo(t, |t|, p, q) && q != p <==> 0 <= q < n && q != p && Arc(p, EPS, q) in ArcsOf(t) {
      if EpsilonTo(t, |t|, p, q) {
        var i :| 0 <= i < |t| && t[i].target != -1 && LineArc(t[i]) == Arc(p, EPS, q);
        assert LineOK(t[i], n);
      }
    }
  }

  lemma NothingStacked(targets: seq<seq<int>>, redcheck: seq<int>, last: int, t: seq<Line>, i: nat, k: nat, n: nat)
    requires i <= k <= |t| && Memoizing(targets, redcheck, [], last, t, i, k, n)
    ensures |targets| == |redcheck| == n && ListsEpsilons(targets, t, i)
  {
  }

  // memoize_e_closure; any proper 0:0 arc makes the net nondeterministic.
  method MemoizeEClosure(t: seq<Line>, n: nat) returns (targets: seq<seq<int>>, deterministic: bool)
    requires IsTable(t, n) && Grouped(t)
    ensures Memoized(Meaning(t, n), targets)
    ensures deterministic <==> forall p :: 0 <= p < n ==> targets[p] == []
  {
    hide IsTable, Grouped, Memoizing, Memoized, ListsEpsilons, Checked;
    TableLines(t, n);
    targets := seq(n, _ => []);
    var redcheck, stack, last := seq(n, _ => -1), [], -1;
    deterministic := true;
    StartMemoizing(t, n);
    for i := 0 to |t|
      invariant Memoizing(targets, redcheck, stack, last, t, i, i, n) && |targets| == |redcheck| == n
      invariant deterministic <==> forall p :: 0 <= p < n ==> targets[p] == []
    {
      var s, q := t[i].state, t[i].target;
      if s != last && stack != [] {
        FlushStack(targets, redcheck, stack, last, t, i, n);
        deterministic := false;
        targets := targets[last := PopAll(stack)];
        assert targets[last] != [];
        stack := [];
      } else {
        NoFlush(targets, redcheck, stack, last, t, i, n);
      }
      assert LineOK(t[i], n);
      if q != -1 && t[i].inp == EPSILON && t[i].outp == EPSILON {
        if redcheck[q] != s && q != s {
          PushTarget(targets, redcheck, stack, last, t, i, n);
          stack := stack + [q];
          redcheck := redcheck[q := s];
        } else {
          SkipLine(targets, redcheck, stack, last, t, i, n, s);
        }
        last := s;
      } else {
        SkipLine(targets, redcheck, stack, last, t, i, n, last);
      }
    }
    if stack != [] {
      FlushLists(targets, redcheck, stack, last, t, |t|, n);
      deterministic := false;
      targets := targets[last := PopAll(stack)];
      assert targets[last] != [];
    } else {
      NothingStacked(targets, redcheck, last, t, |t|, |t|, n);
    }
    ListsMemoized(targets, t, n);
  }

  // ---- The other arcs ----

  predicate Filed(l: Line, num: map<Letter, int>, p: int) {
    l.target != -1 && LineArc(l).letter != EPS && LineArc(l).letter in num && l.state == p
  }

  // What the lines of p say, in line order.
  ghost function Outs(t: seq<Line>, num: map<Letter, int>, p: int): seq<Trans> {
    if t == [] then []
    else
      var l := t[|t| - 1];
      Outs(t[..|t| - 1], num, p) + if Filed(l, num, p) then [Trans(num[LineArc(l).letter], l.target)] else []
  }

  lemma OutsNext(t: seq<Line>, i: nat, num: map<Letter, int>, p: int)
    requires i < |t|
    ensures Outs(t[..i + 1], num, p) == Outs(t[..i], num, p)
                                        + if Filed(t[i], num, p) then [Trans(num[LineArc(t[i]).letter], t[i].target)]
                                          else []
  {
    assert t[..i + 1][..i] == t[..i];
  }

  lemma {:induction false} OutsMember(t: seq<Line>, k: nat, num: map<Letter, int>, p: int, x: Trans)
    requires k <= |t|
    ensures x in Outs(t[..k], num, p) <==>
            exists i :: 0 <= i < k && Filed(t[i], num, p) && x == Trans(num[LineArc(t[i]).letter], t[i].target)
    decreases k
  {
    hide Filed;
    if k > 0 {
      OutsMember(t, k - 1, num, p, x);
      OutsNext(t, k - 1, num, p);
    } else {
      assert t[..k] == [];
    }
  }

  ghost predicate ListsOut(lists: seq<seq<Trans>>, t: seq<Line>, k: nat, num: map<Letter, int>)
    requires k <= |t|
  {
    forall p :: 0 <= p < |lists| ==> lists[p] == Outs(t[..k], num, p)
  }

  // The state of init_trans_array after i lines: run holds the arcs of last.
  ghost predicate Filing(lists: seq<seq<Trans>>, run: seq<Trans>, last: int, t: seq<Line>, i: nat, k: nat,
                         num: map<Letter, int>, n: nat)
    requires i <= k <= |t|
  {
    && |lists| == n && -1 <= last < n && (last == -1 ==> run == []) && (last != -1 ==> Seen(t, i, last))
    && ListsOut(Placed(lists, last, run), t, i, num) && Written(lists, t, k)
  }

  function Placed(lists: seq<seq<Trans>>, last: int, run: seq<Trans>): seq<seq<Trans>> {
    if 0 <= last < |lists| then lists[last := run] else lists
  }

  lemma StartFiling(t: seq<Line>, num: map<Letter, int>, n: nat)
    ensures Filing(seq(n, _ => []), [], -1, t, 0, 0, num, n)
  {
  }

  // The lines of another state begin.
  lemma NextRun(lists: seq<seq<Trans>>, run: seq<Trans>, last: int, t: seq<Line>, i: nat, num: map<Letter, int>, n: nat)
    requires i < |t| && LineOK(t[i], n) && Grouped(t) && Filing(lists, run, last, t, i, i, num, n) && t[i].state != last
    ensures var lists' := Placed(lists, last, run);
            |lists'| == n && ListsOut(Placed(lists', t[i].state, []), t, i, num) && Written(lists', t, i + 1)
  {
    var lists' := Placed(lists, last, run);
    if last != -1 {
      var j :| 0 <= j < i && t[j].state == last;
      assert Over(t, i + 1, last);
    }
    assert Written(lists', t, i + 1);
    NotOver(t, i);
    assert lists'[t[i].state] == [];
    assert Placed(lists', t[i].state, []) == lists';
  }

  lemma FileLine(lists: seq<seq<Trans>>, run: seq<Trans>, t: seq<Line>, i: nat, num: map<Letter, int>, n: nat,
                 run': seq<Trans>)
    requires i < |t| && LineOK(t[i], n) && |lists| == n
    requires ListsOut(Placed(lists, t[i].state, run), t, i, num) && Written(lists, t, i + 1)
    requires var l := LineArc(t[i]).letter;
             if t[i].target != -1 && l != EPS then l in num
                                                   && run' == run + [Trans(num[l], t[i].target)] else run' == run
    ensures Filing(lists, run', t[i].state, t, i + 1, i + 1, num, n)
  {
    var s := t[i].state;
    assert Seen(t, i + 1, s);
    var a, b := Placed(lists, s, run), Placed(lists, s, run');
    forall p | 0 <= p < n ensures b[p] == Outs(t[..i + 1], num, p) {
      assert a[p] == Outs(t[..i], num, p);
      OutsNext(t, i, num, p);
    }
  }

  lemma FilingFacts(lists: seq<seq<Trans>>, run: seq<Trans>, last: int, t: seq<Line>, i: nat, num: map<Letter, int>,
                    n: nat)
    requires i <= |t| && Filing(lists, run, last, t, i, i, num, n)
    ensures |lists| == n && -1 <= last < n && ListsOut(Placed(lists, last, run), t, i, num)
    ensures i < |t| && t[i].state == last ==> ListsOut(Placed(lists, t[i].state, run), t, i, num)
                                              && Written(lists, t, i + 1)
  {
  }

  // The arcs of every state other than 0:0, in line order.
  method FileTransitions(t: seq<Line>, n: nat, num: map<Letter, int>, epsilon: int) returns (lists: seq<seq<Trans>>)
    requires IsTable(t, n) && Grouped(t) && (forall l :: l in num <==> Labels(t, |t|, l))
    requires forall l :: l in num ==> (num[l] == epsilon <==> l == EPS)
    ensures |lists| == n && ListsOut(lists, t, |t|, num)
  {
    hide IsTable, Grouped, Filing, ListsOut, Written, Labels;
    TableLines(t, n);
    lists := seq(n, _ => []);
    var run, last := [], -1;
    StartFiling(t, num, n);
    for i := 0 to |t|
      invariant Filing(lists, run, last, t, i, i, num, n)
    {
      var l, s := t[i], t[i].state;
      FilingFacts(lists, run, last, t, i, num, n);
      assert LineOK(l, n);
      if s != last {
        NextRun(lists, run, last, t, i, num, n);
        lists := Placed(lists, last, run);
        run := [];
      }
      last := s;
      ghost var before := run;
      if l.target != -1 {
        LabelKnown(t, i);
        if num[Letter(l.inp, l.outp)] != epsilon {
          run := run + [Trans(num[Letter(l.inp, l.outp)], l.target)];
        }
      }
      FileLine(lists, before, t, i, num, n, run);
    }
    FilingFacts(lists, run, last, t, |t|, num, n);
    lists := Placed(lists, last, run);
  }

  lemma LabelKnown(t: seq<Line>, i: nat)
    requires i < |t| && t[i].target != -1
    ensures Labels(t, |t|, LineArc(t[i]).letter)
  {
  }

  ghost predicate StrictBySym(s: seq<Trans>) {
    forall i, j :: 0 <= i < j < |s| ==> s[i].sym < s[j].sym
  }

  lemma StrictIsDistinct(s: seq<Trans>)
    requires SortedBySym(s)
    ensures StrictBySym(s) <==> DistinctSyms(s)
  {
  }

  // Does a sorted list have no two entries with the same symbol?
  method CheckRow(s: seq<Trans>) returns (strict: bool)
    requires SortedBySym(s) && forall i :: 0 <= i < |s| ==> s[i].sym >= 0
    ensures strict <==> DistinctSyms(s)
  {
    var lastsym := -1;
    strict := true;
    for j := 0 to |s|
      invariant lastsym == if j == 0 then -1 else s[j - 1].sym
      invariant strict <==> StrictBySym(s[..j])
    {
      if s[j].sym == lastsym {
        assert s[..j + 1][j - 1].sym == s[..j + 1][j].sym;
        strict := false;
      } else if strict {
        assert s[..j + 1] == s[..j] + [s[j]];
      } else {
        var a, b :| 0 <= a < b < j && s[a].sym >= s[b].sym;
        assert s[..j + 1][a].sym >= s[..j + 1][b].sym;
      }
      lastsym := s[j].sym;
    }
    assert s[..|s|] == s;
    StrictIsDistinct(s);
  }

  // The sorted arcs of p other than 0:0.
  ghost predicate Outgoing(tr: seq<Trans>, m: Net, pairs: seq<Letter>, p: int) {
    forall x :: x in tr <==> 0 <= x.sym < |pairs| && pairs[x.sym] != EPS && Arc(p, pairs[x.sym], x.other) in m.arcs
  }

  ghost predicate TransOK(trans: seq<TransArray>, m: Net, pairs: seq<Letter>) {
    |trans| == m.states && RowsOK(trans, m, pairs)
  }

  ghost predicate RowsOK(trans: seq<TransArray>, m: Net, pairs: seq<Letter>) {
    forall p :: 0 <= p < |trans| ==>
      SortedBySym(trans[p].transitions) && Outgoing(trans[p].transitions, m, pairs, p)
  }

  lemma FiledOutgoing(lists: seq<seq<Trans>>, t: seq<Line>, n: nat, num: map<Letter, int>, pairs: seq<Letter>, p: int)
    requires IsTable(t, n) && |lists| == n && ListsOut(lists, t, |t|, num) && Numbering(num, pairs)
    requires (forall l :: l in num <==> Labels(t, |t|, l)) && 0 <= p < n
    ensures Outgoing(lists[p], Meaning(t, n), pairs, p)
  {
    var m := Meaning(t, n);
    forall x ensures x in lists[p] <==> 0 <= x.sym < |pairs| && pairs[x.sym] != EPS
                                        && Arc(p, pairs[x.sym], x.other) in m.arcs {
      assert t[..|t|] == t;
      OutsMember(t, |t|, num, p, x);
      if x in lists[p] {
        var i :| 0 <= i < |t| && Filed(t[i], num, p) && x == Trans(num[LineArc(t[i]).letter], t[i].target);
        assert LineArc(t[i]) == Arc(p, pairs[x.sym], x.other);
      }
      if 0 <= x.sym < |pairs| && pairs[x.sym] != EPS && Arc(p, pairs[x.sym], x.other) in m.arcs {
        var i :| 0 <= i < |t| && t[i].target != -1 && LineArc(t[i]) == Arc(p, pairs[x.sym], x.other);
        assert Filed(t[i], num, p) && x == Trans(num[LineArc(t[i]).letter], t[i].target);
      }
    }
  }

  lemma NoRows(m: Net, pairs: seq<Letter>)
    ensures RowsOK([], m, pairs)
  {
  }

  lemma RowsNext(trans: seq<TransArray>, a: TransArray, m: Net, pairs: seq<Letter>)
    requires RowsOK(trans, m, pairs) && SortedBySym(a.transitions) && Outgoing(a.transitions, m, pairs, |trans|)
    ensures RowsOK(trans + [a], m, pairs)
  {
    hide SortedBySym, Outgoing;
  }

  // qsort, unless there is nothing to sort, and the test for repeated symbols.
  method SortRow(list: seq<Trans>) returns (row: seq<Trans>, strict: bool)
    requires forall i :: 0 <= i < |Sorted(list)| ==> Sorted(list)[i].sym >= 0
    ensures row == (if |list| > 1 then Sorted(list) else list) && SortedBySym(row) && (strict <==> DistinctSyms(list))
  {
    hide Sorted, SortedBySym, DistinctSyms;
    SortedIsSorted(list);
    row, strict := list, true;
    if |row| > 1 {
      row := Sorted(row);
      strict := CheckRow(row);
      SortedDistinct(list);
    } else {
      ShortRow(row);
    }
  }

  // No state has two lines with the same letter, 0:0 aside.
  ghost predicate OneEach(t: seq<Line>, k: nat)
    requires k <= |t|
  {
    forall i, j :: 0 <= i < j < k ==> !SameMove(t[i], t[j])
  }

  ghost predicate SameMove(a: Line, b: Line) {
    && a.target != -1 && b.target != -1 && a.state == b.state
    && LineArc(a).letter == LineArc(b).letter != EPS
  }

  // No two of the first k lines of p have the same letter.
  ghost predicate OneEachOf(t: seq<Line>, k: nat, p: int)
    requires k <= |t|
  {
    forall i, j :: 0 <= i < j < k && t[i].state == p ==> !SameMove(t[i], t[j])
  }

  lemma DistinctSnoc(s: seq<Trans>, x: Trans)
    ensures DistinctSyms(s + [x]) <==> DistinctSyms(s) && Lacks(s, x.sym)
  {
    var all := s + [x];
    if DistinctSyms(all) {
      forall i, j | 0 <= i < j < |s| ensures s[i].sym != s[j].sym {
        assert all[i] == s[i] && all[j] == s[j];
      }
      forall y | y in s ensures y.sym != x.sym {
        var i :| 0 <= i < |s| && s[i] == y;
        assert all[i].sym != all[|s|].sym;
      }
    }
  }

  lemma {:induction false} OutsDistinct(t: seq<Line>, k: nat, num: map<Letter, int>, pairs: seq<Letter>, p: int)
    requires k <= |t| && Numbering(num, pairs) && forall l :: l in num <==> Labels(t, |t|, l)
    ensures DistinctSyms(Outs(t[..k], num, p)) <==> OneEachOf(t, k, p)
    decreases k
  {
    hide DistinctSyms, SameMove, OneEachOf;
    if k == 0 {
      assert t[..k] == [];
      ShortRow([]);
      NoMoves(t, p);
    } else {
      MovesNext(t, k - 1, p);
      OutsDistinct(t, k - 1, num, pairs, p);
      OutsNext(t, k - 1, num, p);
      if Filed(t[k - 1], num, p) {
        var c := num[LineArc(t[k - 1]).letter];
        DistinctSnoc(Outs(t[..k - 1], num, p), Trans(c, t[k - 1].target));
        LacksMove(t, k - 1, num, pairs, p);
      } else {
        NotFiled(t, k - 1, num, p);
        assert Outs(t[..k], num, p) == Outs(t[..k - 1], num, p);
      }
    }
  }

  lemma NoMoves(t: seq<Line>, p: int)
    ensures OneEachOf(t, 0, p)
  {
  }

  lemma MovesNext(t: seq<Line>, k: nat, p: int)
    requires k < |t|
    ensures OneEachOf(t, k + 1, p) <==>
            OneEachOf(t, k, p) && forall i :: 0 <= i < k && t[i].state == p ==> !SameMove(t[i], t[k])
  {
    hide SameMove;
  }

  lemma NotFiled(t: seq<Line>, k: nat, num: map<Letter, int>, p: int)
    requires k < |t| && !Filed(t[k], num, p) && forall l :: l in num <==> Labels(t, |t|, l)
    ensures forall i :: 0 <= i < k && t[i].state == p ==> !SameMove(t[i], t[k])
  {
  }

  // The list has no entry for the symbol of line k, if there was no such move.
  lemma LacksMove(t: seq<Line>, k: nat, num: map<Letter, int>, pairs: seq<Letter>, p: int)
    requires k < |t| && Filed(t[k], num, p) && Numbering(num, pairs) && forall l :: l in num <==> Labels(t, |t|, l)
    ensures Lacks(Outs(t[..k], num, p), num[LineArc(t[k]).letter]) <==>
            forall i :: 0 <= i < k && t[i].state == p ==> !SameMove(t[i], t[k])
  {
    var s, c := Outs(t[..k], num, p), num[LineArc(t[k]).letter];
    if Lacks(s, c) {
      forall i | 0 <= i < k && t[i].state == p ensures !SameMove(t[i], t[k]) {
        if SameMove(t[i], t[k]) {
          OutsMember(t, k, num, p, Trans(c, t[i].target));
        }
      }
    }
    if forall i :: 0 <= i < k && t[i].state == p ==> !SameMove(t[i], t[k]) {
      forall x | x in s ensures x.sym != c {
        OutsMember(t, k, num, p, x);
        var i :| 0 <= i < k && Filed(t[i], num, p) && x == Trans(num[LineArc(t[i]).letter], t[i].target);
        assert pairs[x.sym] == LineArc(t[i]).letter;
      }
    }
  }

  lemma EveryState(t: seq<Line>, n: nat)
    requires IsTable(t, n)
    ensures OneEach(t, |t|) <==> forall p :: 0 <= p < n ==> OneEachOf(t, |t|, p)
  {
    hide SameMove;
    TableLines(t, n);
    if forall p :: 0 <= p < n ==> OneEachOf(t, |t|, p) {
      forall i, j | 0 <= i < j < |t| ensures !SameMove(t[i], t[j]) {
        assert LineOK(t[i], n);
        assert OneEachOf(t, |t|, t[i].state);
      }
    }
  }

  // init_trans_array: sorts every list; two lines of a state with the same
  // symbols make the net nondeterministic.
  method InitTransArray(t: seq<Line>, n: nat, num: map<Letter, int>, ghost pairs: seq<Letter>, epsilon: int)
    returns (trans: array<TransArray>, deterministic: bool)
    requires IsTable(t, n) && Grouped(t) && Numbering(num, pairs) && (forall l :: l in num <==> Labels(t, |t|, l))
    requires epsilon == if EPS in num then num[EPS] else -1
    ensures fresh(trans) && TransOK(trans[..], Meaning(t, n), pairs)
    ensures deterministic <==> OneEach(t, |t|)
  {
    hide IsTable, Grouped, OneEach, OneEachOf, ListsOut, Outs, Outgoing, TransOK, Labels, DistinctSyms;
    var lists := FileTransitions(t, n, num, epsilon);
    trans := new TransArray[n](_ => TransArray([], 0));
    ghost var m := Meaning(t, n);
    forall p | 0 <= p < n ensures Outgoing(lists[p], m, pairs, p)
        && (DistinctSyms(lists[p]) <==> OneEachOf(t, |t|, p)) {
      FiledOutgoing(lists, t, n, num, pairs, p);
      ListOut(lists, t, num, p);
      OutsDistinct(t, |t|, num, pairs, p);
    }
    deterministic := SortRows(trans, lists, m, pairs);
    EveryState(t, n);
  }

  lemma ListOut(lists: seq<seq<Trans>>, t: seq<Line>, num: map<Letter, int>, p: int)
    requires ListsOut(lists, t, |t|, num) && 0 <= p < |lists|
    ensures lists[p] == Outs(t[..|t|], num, p)
  {
  }

  ghost predicate AllDistinct(lists: seq<seq<Trans>>, k: nat)
    requires k <= |lists|
  {
    forall p :: 0 <= p < k ==> DistinctSyms(lists[p])
  }

  lemma NoneDistinct(lists: seq<seq<Trans>>)
    ensures AllDistinct(lists, 0)
  {
  }

  lemma DistinctNext(lists: seq<seq<Trans>>, k: nat)
    requires k < |lists|
    ensures AllDistinct(lists, k + 1) <==> AllDistinct(lists, k) && DistinctSyms(lists[k])
  {
    hide DistinctSyms;
  }

  // The rows sorted; deterministic if none of them repeats a symbol.
  method SortRows(trans: array<TransArray>, lists: seq<seq<Trans>>, ghost m: Net, ghost pairs: seq<Letter>)
    returns (deterministic: bool)
    requires trans.Length == |lists| == m.states && forall p :: 0 <= p < |lists| ==> Outgoing(lists[p], m, pairs, p)
    modifies trans
    ensures TransOK(trans[..], m, pairs)
    ensures deterministic <==> AllDistinct(lists, |lists|)
  {
    hide Outgoing, SortedBySym, DistinctSyms, RowsOK, AllDistinct, Sorted;
    deterministic := true;
    NoRows(m, pairs);
    NoneDistinct(lists);
    assert trans[..0] == [];
    for p := 0 to trans.Length
      invariant RowsOK(trans[..p], m, pairs)
      invariant deterministic <==> AllDistinct(lists, p)
    {
      SortedRow(lists[p], m, pairs, p);
      DistinctNext(lists, p);
      var row, strict := SortRow(lists[p]);
      deterministic := deterministic && strict;
      ghost var before := trans[..p];
      RowsNext(before, TransArray(row, 0), m, pairs);
      trans[p] := TransArray(row, 0);
      assert trans[..p + 1] == before + [TransArray(row, 0)];
    }
    assert trans[..trans.Length] == trans[..];
  }

  lemma SortedRow(s: seq<Trans>, m: Net, pairs: seq<Letter>, p: int)
    requires Outgoing(s, m, pairs, p)
    ensures Outgoing(Sorted(s), m, pairs, p) && forall i :: 0 <= i < |Sorted(s)| ==> Sorted(s)[i].sym >= 0
  {
    SortedIsSorted(s);
    forall i | 0 <= i < |Sorted(s)| ensures Sorted(s)[i].sym >= 0 {
      assert Sorted(s)[i] in s;
    }
  }

  lemma ShortRow(s: seq<Trans>)
    requires |s| <= 1
    ensures SortedBySym(s) && DistinctSyms(s)
  {
  }

  // The net is found to be deterministic exactly if it is and no arc is listed
  // twice.
  lemma AlreadyDeterministic(t: seq<Line>, n: nat)
    requires IsTable(t, n)
    ensures OneEach(t, |t|) && EpsilonFree(ArcsOf(t)) && StartsOf(t) == {0} <==>
              Deterministic(Meaning(t, n)) && DistinctLines(t)
  {
    TableIsClosed(t, n);
    if OneEach(t, |t|) && EpsilonFree(ArcsOf(t)) {
      forall a, b | a in ArcsOf(t) && b in ArcsOf(t) && a.src == b.src && a.letter == b.letter ensures a.dst == b.dst {
        var i :| 0 <= i < |t| && t[i].target != -1 && LineArc(t[i]) == a;
        var j :| 0 <= j < |t| && t[j].target != -1 && LineArc(t[j]) == b;
        assert !SameMove(t[i], t[j]) || i == j;
      }
      forall i, j | 0 <= i < j < |t| && t[i].target != -1 && t[j].target != -1 ensures LineArc(t[i]) != LineArc(t[j]) {
        assert LineArc(t[i]) in ArcsOf(t);
        assert !SameMove(t[i], t[j]);
      }
    }
    if Deterministic(Meaning(t, n)) && DistinctLines(t) {
      forall i, j | 0 <= i < j < |t| ensures !SameMove(t[i], t[j]) {
        assert t[i].target != -1 ==> LineArc(t[i]) in ArcsOf(t);
        assert t[j].target != -1 ==> LineArc(t[j]) in ArcsOf(t);
      }
    }
  }
}
