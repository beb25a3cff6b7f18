// The order of the rows in a table: when a state's row begins, all states with
// smaller numbers have come up.  Tables in ascending order are like this, and
// so are those of searches that number states as they find them and write them
// from a stack.

module Order {
  import opened Nets

  // d has come up in the complete rows before line r: either its own row, or
  // an arc to it in a row that has another line besides.
  ghost predicate Known(t: seq<Line>, r: nat, d: int)
    requires r <= |t|
  {
    exists k :: 0 <= k < r && (t[k].state == d || (t[k].target == d && Companion(t, r, k)))
  }

  ghost predicate Companion(t: seq<Line>, r: nat, k: nat)
    requires k < r <= |t|
  {
    exists m :: 0 <= m < r && m != k && t[m].state == t[k].state
  }

  ghost predicate InOrder(t: seq<Line>) {
    forall i, d :: 0 <= i < |t| && RowBegins(t, i) && 0 < d < t[i].state ==> Known(t, i, d)
  }

  ghost predicate RowBegins(t: seq<Line>, i: nat)
    requires i < |t|
  {
    i == 0 || t[i - 1].state != t[i].state
  }

  ghost predicate Ascending(t: seq<Line>) {
    forall i, j :: 0 <= i < j < |t| ==> t[i].state <= t[j].state
  }

  lemma AscendingInOrder(t: seq<Line>, n: nat)
    requires IsTable(t, n) && Ascending(t)
    ensures InOrder(t)
  {
    forall i, d | 0 <= i < |t| && RowBegins(t, i) && 0 < d < t[i].state ensures Known(t, i, d) {
      assert LineOK(t[i], n);
      assert HasLine(t, d);
      var k :| 0 <= k < |t| && t[k].state == d;
    }
  }

  // What a state being written adds: lines of its own, at the end.
  ghost predicate Appended(t: seq<Line>, t': seq<Line>, q: int) {
    t <= t' && forall i :: |t| <= i < |t'| ==> t'[i].state == q
  }

  lemma KnownLater(t: seq<Line>, r: nat, t': seq<Line>, r': nat, d: int)
    requires r <= |t| && r <= r' <= |t'| && t[..r] == t'[..r] && Known(t, r, d)
    ensures Known(t', r', d)
  {
    var k :| 0 <= k < r && (t[k].state == d || (t[k].target == d && Companion(t, r, k)));
    assert t'[k] == t[..r][k] == t[k];
    if t[k].state != d {
      var m :| 0 <= m < r && m != k && t[m].state == t[k].state;
      assert t'[m] == t[..r][m] == t[m];
      assert Companion(t', r', k);
    }
  }

  // All smaller states have come up: the row of q may begin.
  ghost predicate RowReady(t: seq<Line>, q: int) {
    forall d :: 0 < d < q ==> Known(t, |t|, d)
  }

  lemma RowInOrder(t: seq<Line>, t': seq<Line>, q: int)
    requires InOrder(t) && RowReady(t, q) && Appended(t, t', q)
    ensures InOrder(t')
  {
    hide Known;
    forall i, d | 0 <= i < |t'| && RowBegins(t', i) && 0 < d < t'[i].state ensures Known(t', i, d) {
      if i < |t| {
        assert t[i] == t'[i] && RowBegins(t, i);
        KnownLater(t, i, t', i, d);
      } else {
        assert i == |t|;
        KnownLater(t, |t|, t', i, d);
      }
    }
  }

  ghost predicate Increasing(s: seq<int>) {
    forall i, j :: 0 <= i < j < |s| ==> s[i] < s[j]
  }

  ghost predicate ArcLine(t: seq<Line>, q: int, d: int) {
    exists k :: 0 <= k < |t| && t[k].state == q && t[k].target == d
  }

  // Between two states: all below count are written or wait on the stack, and
  // those below the top have come up.
  ghost predicate Found(t: seq<Line>, stack: seq<int>, count: nat) {
    && InOrder(t) && Increasing(stack) && (forall i :: 0 <= i < |stack| ==> stack[i] < count)
    && (forall i :: 0 <= i < |stack| - 1 ==> Known(t, |t|, stack[i]))
    && (forall d :: 0 < d < count ==> d in stack || HasLine(t, d))
  }

  // While the row of q is written: t0 is the table when it began, and pushed
  // are the states found since.
  ghost predicate Finding(t0: seq<Line>, t: seq<Line>, q: int, rest: seq<int>, pushed: seq<int>, count: nat) {
    && InOrder(t0) && RowReady(t0, q) && Appended(t0, t, q) && Increasing(rest + pushed)
    && (forall i :: 0 <= i < |rest| ==> rest[i] < count && Known(t0, |t0|, rest[i]))
    && (forall i :: 0 <= i < |pushed| ==> pushed[i] < count && ArcLine(t, q, pushed[i]))
    && (forall d :: 0 < d < count ==> d in rest || d in pushed || d == q || HasLine(t0, d))
  }

  lemma NothingFound()
    ensures Found([], [0], 1) && Finding([], [], 0, [], [], 1)
  {
  }

  lemma OpenRow(t: seq<Line>, rest: seq<int>, q: int, count: nat)
    requires Found(t, rest + [q], count)
    ensures Finding(t, t, q, rest, [], count) && q < count
  {
    var stack := rest + [q];
    assert stack[|rest|] == q;
    forall i | 0 <= i < |rest| ensures Known(t, |t|, rest[i]) && rest[i] < count {
      assert stack[i] == rest[i];
    }
    forall d | 0 < d < q ensures Known(t, |t|, d) {
      if d in rest {
        var i :| 0 <= i < |rest| && rest[i] == d;
      } else {
        assert d !in stack;
        var k :| 0 <= k < |t| && t[k].state == d;
      }
    }
    assert rest + [] == rest;
    forall d | 0 < d < count ensures d in rest || d == q || HasLine(t, d) {
      assert d in stack ==> d in rest || d == q;
    }
    forall i, j | 0 <= i < j < |rest| ensures rest[i] < rest[j] {
      assert stack[i] < stack[j];
    }
  }

  lemma ArcLineLater(t: seq<Line>, t': seq<Line>, q: int, d: int)
    requires t <= t' && ArcLine(t, q, d)
    ensures ArcLine(t', q, d)
  {
    var k :| 0 <= k < |t| && t[k].state == q && t[k].target == d;
    assert t'[k] == t[k];
  }

  // Another line, with or without a new state.
  lemma MoreLines(t0: seq<Line>, t: seq<Line>, q: int, rest: seq<int>, pushed: seq<int>, count: nat, t': seq<Line>)
    requires Finding(t0, t, q, rest, pushed, count) && Appended(t, t', q)
    ensures Finding(t0, t', q, rest, pushed, count)
    ensures ArcLine(t', q, count) ==> Finding(t0, t', q, rest, pushed + [count], count + 1)
  {
    hide Known, RowReady, InOrder;
    forall d | ArcLine(t, q, d) ensures ArcLine(t', q, d) {
      ArcLineLater(t, t', q, d);
    }
    if ArcLine(t', q, count) {
      hide ArcLine;
      var more := pushed + [count];
      assert rest + more == (rest + pushed) + [count];
      forall i | 0 <= i < |more| ensures more[i] < count + 1 && ArcLine(t', q, more[i]) {
        assert i < |pushed| ==> more[i] == pushed[i];
      }
      forall i, j | 0 <= i < j < |rest + more| ensures (rest + more)[i] < (rest + more)[j] {
        assert i < |rest + pushed| && (rest + more)[i] == (rest + pushed)[i];
        assert (rest + more)[i] == if i < |rest| then rest[i] else pushed[i - |rest|];
      }
      forall d | 0 < d < count + 1 ensures d in rest || d in more || d == q || HasLine(t0, d) {
        assert d == count ==> more[|pushed|] == d;
        assert d in pushed ==> d in more;
      }
    }
  }

  lemma KnownTwo(t: seq<Line>, q: int, d: int, e: int)
    requires ArcLine(t, q, d) && ArcLine(t, q, e) && d != e
    ensures Known(t, |t|, d)
  {
    var k :| 0 <= k < |t| && t[k].state == q && t[k].target == d;
    var m :| 0 <= m < |t| && t[m].state == q && t[m].target == e;
    assert Companion(t, |t|, k);
  }

  lemma CloseRow(t0: seq<Line>, t: seq<Line>, q: int, rest: seq<int>, pushed: seq<int>, count: nat)
    requires Finding(t0, t, q, rest, pushed, count) && HasLine(t, q)
    ensures Found(t, rest + pushed, count)
  {
    hide Known, ArcLine, Companion;
    RowInOrder(t0, t, q);
    hide InOrder, RowReady;
    var stack := rest + pushed;
    forall i | 0 <= i < |stack| - 1 ensures Known(t, |t|, stack[i]) {
      if i < |rest| {
        KnownLater(t0, |t0|, t, |t|, rest[i]);
      } else {
        var j := i - |rest|;
        assert stack[i] == pushed[j] && stack[|stack| - 1] == pushed[|pushed| - 1];
        KnownTwo(t, q, pushed[j], pushed[|pushed| - 1]);
      }
    }
    forall d | 0 < d < count ensures d in stack || HasLine(t, d) {
      if HasLine(t0, d) {
        var k :| 0 <= k < |t0| && t0[k].state == d;
        assert t[k].state == d;
      }
    }
  }

  // When nothing waits, the table is in order.
  lemma AllFound(t: seq<Line>, count: nat)
    requires Found(t, [], count)
    ensures InOrder(t)
  {
  }
}
