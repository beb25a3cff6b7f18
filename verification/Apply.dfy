// apply_net (apply.c): the depth-first search behind apply_down and apply_up,
// with an explicit stack, visit marks and flag restoration, resumable after
// every result.  The arcs of a state are found by its index, by bisection, or
// one by one.

module Apply {
  import opened Nets
  import opened Counting
  import opened Flags
  import opened Options
  import opened Lookup
  import opened ArcIndex
  import opened ArcSearch

  // rest has the lines still to try when the frame is popped.
  datatype Frame = Frame(offset: nat, iptr: Ptr, hasIndex: bool, ipos: nat, opos: nat, visitmark: int,
                         flagname: Option<string>, flagvalue: Option<string>, flagneg: bool, ghost rest: seq<nat>)

  ghost function Offsets(stack: seq<Frame>): (r: seq<nat>)
    ensures |r| == |stack| && forall i :: 0 <= i < |stack| ==> r[i] == stack[i].offset
  {
    seq(|stack|, i requires 0 <= i < |stack| => stack[i].offset)
  }

  // The configuration entered from frame i.
  ghost function After(configs: seq<Config>, cur: Config, i: nat): Config {
    if i + 1 < |configs| then configs[i + 1] else cur
  }

  ghost predicate FrameOK(k: Task, f: Frame, c: Config, next: Config)
    requires TaskOK(k)
  {
    && ConfigOK(k, c) && f.offset < |k.t| && k.t[f.offset].state == c.state && k.t[f.offset].inp != -1
    && f.ipos == c.ipos && Follow(k, c, f.offset) == Some(next)
    && Undo(next.flags, f.flagname, f.flagvalue, f.flagneg) == c.flags && f.visitmark == c.ipos + 1
  }

  // What popping a frame does to the flags.
  function Undo(list: map<string, Entry>, name: Option<string>, value: Option<string>, neg: bool): map<string, Entry> {
    if name.None? then list else list[name.value := Entry(value, neg)]
  }

  // The stack is a path from the root to cur; the flags replay along it.
  ghost predicate Spelled(k: Task, stack: seq<Frame>, configs: seq<Config>, cur: Config)
    requires TaskOK(k)
  {
    && |configs| == |stack| && ConfigOK(k, cur) && (if configs == [] then cur else configs[0]) == Root(k)
    && (forall i :: 0 <= i < |stack| ==> FrameOK(k, stack[i], configs[i], After(configs, cur, i)))
  }

  // Every frame knows where to go on.
  ghost predicate Stands(k: Task, x: IndexTable, stack: seq<Frame>, configs: seq<Config>) {
    && |stack| == |configs| && |k.first| == k.n
    && (forall i :: 0 <= i < |stack| ==> 0 <= configs[i].state < k.n && FrameStands(k, x, stack[i], configs[i].state))
  }

  ghost predicate FrameStands(k: Task, x: IndexTable, f: Frame, q: int)
    requires 0 <= q < |k.first|
  {
    && LinesOf(k, q, f.rest)
    && (if f.hasIndex then Walk(x, f.iptr, [f.offset] + f.rest)
        else f.iptr.Nil? && f.offset < |k.t| && InRow(k, q, f.offset) && f.rest == Row(k, q, f.offset + 1))
  }

  // Every frame is at a line with an arc.
  ghost predicate Placed(k: Task, stack: seq<Frame>) {
    forall i :: 0 <= i < |stack| ==> stack[i].offset < |k.t| && k.t[stack[i].offset].target != -1
  }

  // What the first m frames print.
  ghost function Printed(k: Task, stack: seq<Frame>, configs: seq<Config>, m: nat): string
    requires TaskOK(k) && m <= |stack| == |configs| && Placed(k, stack)
    decreases m
  {
    if m == 0 then "" else Printed(k, stack, configs, m - 1) + Text(k, configs[m - 1].ipos, stack[m - 1].offset)
  }

  // ---- What is still to come ----

  ghost function Extended(pre: seq<nat>, paths: seq<seq<nat>>): (r: seq<seq<nat>>)
    ensures |r| == |paths| && forall j :: 0 <= j < |paths| ==> r[j] == pre + paths[j]
  {
    seq(|paths|, j requires 0 <= j < |paths| => pre + paths[j])
  }

  // The results the first m frames have left.
  ghost function Pending(k: Task, stack: seq<Frame>, configs: seq<Config>, m: nat): seq<seq<nat>>
    requires TaskOK(k) && NoSilentCycle(k) && m <= |stack| == |configs|
    requires forall i :: 0 <= i < |stack| ==> ConfigOK(k, configs[i]) && stack[i].offset < |k.t|
    decreases m
  {
    if m == 0 then []
    else Extended(Offsets(stack)[..m - 1], From(k, configs[m - 1], stack[m - 1].rest))
         + Pending(k, stack, configs, m - 1)
  }

  // A bound on the steps of a search: from a configuration, and over lines.
  ghost function Work(k: Task, c: Config): nat
    requires TaskOK(k) && NoSilentCycle(k) && ConfigOK(k, c)
    decreases |k.word| - c.ipos, Rank(k, c.state), 1, 0
  {
    1 + WorkFrom(k, c, Arcs(k, c))
  }

  ghost function WorkFrom(k: Task, c: Config, lines: seq<nat>): (r: nat)
    requires TaskOK(k) && NoSilentCycle(k) && ConfigOK(k, c)
    ensures r > 0
    decreases |k.word| - c.ipos, Rank(k, c.state), 0, |lines|
  {
    if lines == [] then 1
    else
      var i := lines[0];
      (if i >= |k.t| || k.t[i].state != c.state || Follow(k, c, i).None? then 0
       else
         Progress(k, c, i);
         Work(k, Follow(k, c, i).value) + 3)
      + 1 + WorkFrom(k, c, lines[1..])
  }

  // Over the row of a state, from line i on.
  ghost function FromRow(k: Task, c: Config, i: nat): seq<seq<nat>>
    requires TaskOK(k) && NoSilentCycle(k) && ConfigOK(k, c) && i <= |k.t|
  {
    From(k, c, Row(k, c.state, i))
  }

  ghost function RowWork(k: Task, c: Config, i: nat): nat
    requires TaskOK(k) && NoSilentCycle(k) && ConfigOK(k, c) && i <= |k.t|
  {
    WorkFrom(k, c, Row(k, c.state, i))
  }

  ghost function PendingWork(k: Task, stack: seq<Frame>, configs: seq<Config>, m: nat): nat
    requires TaskOK(k) && NoSilentCycle(k) && m <= |stack| == |configs|
    requires forall i :: 0 <= i < |stack| ==> ConfigOK(k, configs[i]) && stack[i].offset < |k.t|
    decreases m
  {
    if m == 0 then 0 else WorkFrom(k, configs[m - 1], stack[m - 1].rest) + 1 + PendingWork(k, stack, configs, m - 1)
  }

  // ---- Pushing and popping ----

  // Only the frames and configurations below m matter.
  lemma {:induction false} PendingFrame(k: Task, stack: seq<Frame>, configs: seq<Config>, stack': seq<Frame>,
                                        configs': seq<Config>, m: nat)
    requires TaskOK(k) && NoSilentCycle(k) && m <= |stack| == |configs| && m <= |stack'| == |configs'|
    requires forall i :: 0 <= i < |stack| ==> ConfigOK(k, configs[i]) && stack[i].offset < |k.t|
    requires forall i :: 0 <= i < |stack'| ==> ConfigOK(k, configs'[i]) && stack'[i].offset < |k.t|
    requires stack[..m] == stack'[..m] && configs[..m] == configs'[..m]
    ensures Pending(k, stack, configs, m) == Pending(k, stack', configs', m)
    ensures PendingWork(k, stack, configs, m) == PendingWork(k, stack', configs', m)
    decreases m
  {
    hide TaskOK, ConfigOK, NoSilentCycle, From, WorkFrom;
    if m > 0 {
      hide Pending, PendingWork;
      PendingTop(k, stack, configs, m - 1);
      PendingTop(k, stack', configs', m - 1);
      assert stack[m - 1] == stack[..m][m - 1] == stack'[m - 1];
      assert configs[m - 1] == configs[..m][m - 1] == configs'[m - 1];
      assert stack[..m - 1] == stack[..m][..m - 1] == stack'[..m - 1];
      assert configs[..m - 1] == configs[..m][..m - 1] == configs'[..m - 1];
      PendingFrame(k, stack, configs, stack', configs', m - 1);
      SameOffsets(stack, stack', m - 1);
    }
  }

  lemma SameOffsets(stack: seq<Frame>, stack': seq<Frame>, m: nat)
    requires m <= |stack| && m <= |stack'| && stack[..m] == stack'[..m]
    ensures Offsets(stack)[..m] == Offsets(stack')[..m]
  {
    forall i | 0 <= i < m ensures Offsets(stack)[i] == Offsets(stack')[i] {
      assert stack[..m][i] == stack'[..m][i];
    }
  }

  lemma {:induction false} PrintedFrame(k: Task, stack: seq<Frame>, configs: seq<Config>, stack': seq<Frame>,
                                        configs': seq<Config>, m: nat)
    requires TaskOK(k) && m <= |stack| == |configs| && m <= |stack'| == |configs'|
    requires Placed(k, stack)
    requires Placed(k, stack')
    requires stack[..m] == stack'[..m] && configs[..m] == configs'[..m]
    ensures Printed(k, stack, configs, m) == Printed(k, stack', configs', m)
    decreases m
  {
    if m > 0 {
      assert stack[m - 1] == stack[..m][m - 1] == stack'[m - 1];
      assert configs[m - 1] == configs[..m][m - 1] == configs'[m - 1];
      assert stack[..m - 1] == stack[..m][..m - 1] == stack'[..m - 1];
      assert configs[..m - 1] == configs[..m][..m - 1] == configs'[..m - 1];
      PrintedFrame(k, stack, configs, stack', configs', m - 1);
    }
  }

  lemma FrameFacts(k: Task, f: Frame, c: Config, next: Config)
    requires TaskOK(k) && FrameOK(k, f, c, next)
    ensures ConfigOK(k, c) && ConfigOK(k, next) && f.offset < |k.t| && k.t[f.offset].state == c.state
            && k.t[f.offset].target == next.state != -1
    ensures f.ipos == c.ipos <= next.ipos && Follow(k, c, f.offset) == Some(next)
    ensures next.ipos == c.ipos ==> Silent(k, f.offset)
  {
    hide Undo;
  }

  lemma SpelledFacts(k: Task, stack: seq<Frame>, configs: seq<Config>, cur: Config)
    requires TaskOK(k) && Spelled(k, stack, configs, cur)
    ensures |configs| == |stack| && ConfigOK(k, cur)
    ensures forall i :: 0 <= i < |stack| ==> ConfigOK(k, configs[i]) && stack[i].offset < |k.t|
                                             && k.t[stack[i].offset].target != -1
    ensures forall i :: 0 <= i < |stack| ==> stack[i].ipos == configs[i].ipos <= cur.ipos
  {
    hide TaskOK, ConfigOK, FrameOK, Follow;
    forall i | 0 <= i < |stack|
      ensures ConfigOK(k, configs[i]) && stack[i].offset < |k.t| && k.t[stack[i].offset].target != -1
              && stack[i].ipos == configs[i].ipos {
      FrameFacts(k, stack[i], configs[i], After(configs, cur, i));
    }
    forall i | 0 <= i < |stack| ensures configs[i].ipos <= cur.ipos {
      InputGrows(k, stack, configs, cur, i);
    }
  }

  lemma {:induction false} InputGrows(k: Task, stack: seq<Frame>, configs: seq<Config>, cur: Config, i: nat)
    requires TaskOK(k) && Spelled(k, stack, configs, cur) && i < |stack|
    ensures configs[i].ipos <= After(configs, cur, i).ipos <= cur.ipos
    decreases |stack| - i
  {
    hide TaskOK, ConfigOK, FrameOK, Follow, Root;
    FrameFacts(k, stack[i], configs[i], After(configs, cur, i));
    if i + 1 < |stack| {
      InputGrows(k, stack, configs, cur, i + 1);
    }
  }

  lemma Push(k: Task, stack: seq<Frame>, configs: seq<Config>, cur: Config, f: Frame, next: Config)
    requires TaskOK(k) && Spelled(k, stack, configs, cur) && FrameOK(k, f, cur, next)
    ensures Spelled(k, stack + [f], configs + [cur], next)
  {
    hide TaskOK, FrameOK, Root;
    FrameFacts(k, f, cur, next);
    var stack', configs' := stack + [f], configs + [cur];
    forall i | 0 <= i < |stack'| ensures FrameOK(k, stack'[i], configs'[i], After(configs', next, i)) {
      if i < |stack| {
        assert FrameOK(k, stack[i], configs[i], After(configs, cur, i));
        assert After(configs', next, i) == After(configs, cur, i);
      }
    }
  }

  lemma Popped(k: Task, stack: seq<Frame>, configs: seq<Config>, cur: Config)
    requires TaskOK(k) && Spelled(k, stack, configs, cur) && stack != []
    ensures Spelled(k, stack[..|stack| - 1], configs[..|stack| - 1], configs[|stack| - 1])
    ensures FrameOK(k, stack[|stack| - 1], configs[|stack| - 1], cur)
  {
    hide TaskOK, FrameOK, Root;
    var m := |stack| - 1;
    var stack', configs', cur' := stack[..m], configs[..m], configs[m];
    assert FrameOK(k, stack[m], configs[m], After(configs, cur, m));
    FrameFacts(k, stack[m], configs[m], After(configs, cur, m));
    forall i | 0 <= i < m ensures FrameOK(k, stack'[i], configs'[i], After(configs', cur', i)) {
      assert FrameOK(k, stack[i], configs[i], After(configs, cur, i));
      assert After(configs', cur', i) == After(configs, cur, i);
    }
  }

  lemma PushStands(k: Task, x: IndexTable, stack: seq<Frame>, configs: seq<Config>, c: Config, f: Frame)
    requires Stands(k, x, stack, configs) && 0 <= c.state < |k.first| && FrameStands(k, x, f, c.state)
    ensures Stands(k, x, stack + [f], configs + [c])
  {
    hide FrameStands;
  }

  lemma PoppedStands(k: Task, x: IndexTable, stack: seq<Frame>, configs: seq<Config>)
    requires Stands(k, x, stack, configs) && stack != []
    requires var f := stack[|stack| - 1]; f.offset < |k.t| && k.t[f.offset].state == configs[|stack| - 1].state
                                          && k.t[f.offset].inp != -1
    ensures var m := |stack| - 1; var f, q := stack[m], configs[m].state; var lines := [f.offset] + f.rest;
            && Stands(k, x, stack[..m], configs[..m]) && 0 <= q < |k.first| && LinesOf(k, q, lines)
            && (if f.hasIndex then Walk(x, f.iptr, lines)
                else f.iptr.Nil? && InRow(k, q, f.offset) && lines == Row(k, q, f.offset))
  {
    var m := |stack| - 1;
    assert FrameStands(k, x, stack[m], configs[m].state);
    hide Walk;
  }

  // ---- The path on the stack ----

  // The output of a path is what its frames print.
  lemma {:induction false} PrintedIsOutput(k: Task, stack: seq<Frame>, configs: seq<Config>, cur: Config, i: nat,
                                           rest: seq<nat>)
    requires TaskOK(k) && Spelled(k, stack, configs, cur) && i <= |stack|
    requires Placed(k, stack)
    ensures var c := if i < |configs| then configs[i] else cur;
            ConfigOK(k, c) && Output(k, Root(k), Offsets(stack) + rest) == Printed(k, stack, configs, i)
                + Output(k, c, Offsets(stack)[i..] + rest)
    decreases i
  {
    hide TaskOK, FrameOK, Root, Follow, Text, ConfigOK, Output;
    if i == 0 {
      assert Offsets(stack)[0..] == Offsets(stack);
      if |stack| > 0 {
        FrameFacts(k, stack[0], configs[0], After(configs, cur, 0));
      }
    } else {
      PrintedIsOutput(k, stack, configs, cur, i - 1, rest);
      FrameFacts(k, stack[i - 1], configs[i - 1], After(configs, cur, i - 1));
      var o, c := stack[i - 1].offset, configs[i - 1];
      PathTail(stack, i, rest);
      OutputCons(k, c, o, Offsets(stack)[i..] + rest);
      Regroup(Printed(k, stack, configs, i - 1), Text(k, c.ipos, o),
              Output(k, After(configs, cur, i - 1), Offsets(stack)[i..] + rest));
    }
  }

  lemma PathTail(stack: seq<Frame>, i: nat, rest: seq<nat>)
    requires 0 < i <= |stack|
    ensures Offsets(stack)[i - 1..] + rest == [stack[i - 1].offset] + (Offsets(stack)[i..] + rest)
  {
  }

  lemma Regroup(a: string, b: string, c: string)
    ensures a + (b + c) == (a + b) + c
  {
  }

  lemma OutputCons(k: Task, c: Config, o: nat, path: seq<nat>)
    requires TaskOK(k) && ConfigOK(k, c) && o < |k.t| && Follow(k, c, o).Some?
    ensures SymOut(k, o) in k.text && |k.sigs| == |k.word|
    ensures Output(k, c, [o] + path) == Text(k, c.ipos, o) + Output(k, Follow(k, c, o).value, path)
  {
    hide Text;
    assert ([o] + path)[1..] == path;
  }

  // A state is not entered twice at the same position.
  lemma NotTwice(k: Task, stack: seq<Frame>, configs: seq<Config>, cur: Config, i: nat)
    requires TaskOK(k) && NoSilentCycle(k) && Spelled(k, stack, configs, cur) && i < |stack|
    ensures !(configs[i].state == cur.state && configs[i].ipos == cur.ipos)
  {
    hide TaskOK, FrameOK, Leads;
    if configs[i].ipos == cur.ipos {
      SilentBetween(k, stack, configs, cur, i);
    }
  }

  lemma {:induction false} SilentBetween(k: Task, stack: seq<Frame>, configs: seq<Config>, cur: Config, i: nat)
    requires TaskOK(k) && Spelled(k, stack, configs, cur) && i < |stack| && configs[i].ipos == cur.ipos
    ensures Leads(k, configs[i].state, cur.state)
    decreases |stack| - i
  {
    hide TaskOK, FrameOK, Follow, Root, ConfigOK, Silent;
    var o := stack[i].offset;
    FrameFacts(k, stack[i], configs[i], After(configs, cur, i));
    InputGrows(k, stack, configs, cur, i);
    if i + 1 < |stack| {
      SilentBetween(k, stack, configs, cur, i + 1);
      var path :| SilentPath(k, configs[i + 1].state, path, cur.state);
      assert ([o] + path)[1..] == path;
      assert SilentPath(k, configs[i].state, [o] + path, cur.state);
    } else {
      assert SilentPath(k, configs[i].state, [o], cur.state);
    }
  }

  // ---- Steps of the search on paths ----

  lemma ExtendedAppend(pre: seq<nat>, a: seq<seq<nat>>, b: seq<seq<nat>>)
    ensures Extended(pre, a + b) == Extended(pre, a) + Extended(pre, b)
  {
  }

  lemma ExtendedPrefixed(pre: seq<nat>, i: nat, paths: seq<seq<nat>>)
    ensures Extended(pre, Prefixed(i, paths)) == Extended(pre + [i], paths)
  {
    var a, b := Extended(pre, Prefixed(i, paths)), Extended(pre + [i], paths);
    forall j | 0 <= j < |paths| ensures a[j] == b[j] {
      assert pre + ([i] + paths[j]) == (pre + [i]) + paths[j];
    }
  }

  // Arriving: a final state at the end of the word gives a result at once.
  lemma Arriving(k: Task, c: Config, pre: seq<nat>, rest: seq<seq<nat>>)
    requires TaskOK(k) && NoSilentCycle(k) && ConfigOK(k, c)
    ensures Extended(pre, All(k, c)) + rest ==
              (if Final(k, c) then [pre] else []) + (Extended(pre, From(k, c, Arcs(k, c))) + rest)
  {
    hide Arcs;
    var from := From(k, c, Arcs(k, c));
    assert All(k, c) == (if Final(k, c) then [[]] else []) + from;
    hide Final, All, From, TaskOK, ConfigOK;
    ResultFirst(pre, Final(k, c), from, rest);
  }

  lemma ResultFirst(pre: seq<nat>, final: bool, from: seq<seq<nat>>, rest: seq<seq<nat>>)
    ensures Extended(pre, (if final then [[]] else []) + from) + rest == (if final then [pre] else [])
            + (Extended(pre, from) + rest)
  {
    if final {
      ExtendedAppend(pre, [[]], from);
      assert pre + [] == pre;
      assert Extended(pre, [[]]) == [pre];
    } else {
      assert [] + from == from;
    }
  }

  // The first of the lines, and the others.
  lemma FromNext(k: Task, c: Config, lines: seq<nat>)
    requires TaskOK(k) && NoSilentCycle(k) && ConfigOK(k, c) && lines != []
    requires lines[0] < |k.t| && k.t[lines[0]].state == c.state
    ensures var d, rest := Follow(k, c, lines[0]), lines[1..];
            if d.None? then From(k, c, lines) == From(k, c, rest) && WorkFrom(k, c, lines) == 1 + WorkFrom(k, c, rest)
            else
              && From(k, c, lines) == Prefixed(lines[0], All(k, d.value)) + From(k, c, rest)
              && WorkFrom(k, c, lines) == Work(k, d.value) + 4 + WorkFrom(k, c, rest)
  {
    hide Follow, All, Work;
    assert [] + From(k, c, lines[1..]) == From(k, c, lines[1..]);
  }

  lemma Skip(k: Task, c: Config, lines: seq<nat>)
    requires TaskOK(k) && NoSilentCycle(k) && ConfigOK(k, c) && lines != []
    requires lines[0] < |k.t| && k.t[lines[0]].state == c.state && Follow(k, c, lines[0]).None?
    ensures From(k, c, lines) == From(k, c, lines[1..]) && WorkFrom(k, c, lines[1..]) < WorkFrom(k, c, lines)
  {
    hide Follow, From, WorkFrom;
    FromNext(k, c, lines);
  }

  lemma SkipInRow(k: Task, c: Config, i: nat)
    requires TaskOK(k) && NoSilentCycle(k) && ConfigOK(k, c)
    requires i < |k.t| && k.t[i].state == c.state && k.t[i].inp != -1 && Follow(k, c, i).None?
    ensures FromRow(k, c, i) == FromRow(k, c, i + 1) && RowWork(k, c, i + 1) < RowWork(k, c, i)
  {
    hide From, WorkFrom, Follow;
    var row := Row(k, c.state, i);
    assert row[0] == i && row[1..] == Row(k, c.state, i + 1);
    Skip(k, c, row);
  }

  lemma Descend(k: Task, c: Config, lines: seq<nat>, pre: seq<nat>, rest: seq<seq<nat>>)
    requires TaskOK(k) && NoSilentCycle(k) && ConfigOK(k, c) && lines != []
    requires var i := lines[0]; i < |k.t| && k.t[i].state == c.state && Follow(k, c, i).Some?
    ensures Extended(pre, From(k, c, lines)) + rest ==
              Extended(pre + [lines[0]], All(k, Follow(k, c, lines[0]).value))
                  + (Extended(pre, From(k, c, lines[1..])) + rest)
    ensures Work(k, Follow(k, c, lines[0]).value) + 3 + WorkFrom(k, c, lines[1..]) < WorkFrom(k, c, lines)
  {
    hide *;
    var i := lines[0];
    var all, from := All(k, Follow(k, c, i).value), From(k, c, lines[1..]);
    FromNext(k, c, lines);
    ExtendedAppend(pre, Prefixed(i, all), from);
    ExtendedPrefixed(pre, i, all);
    Associative(Extended(pre + [i], all), Extended(pre, from), rest);
  }

  lemma Associative(a: seq<seq<nat>>, b: seq<seq<nat>>, c: seq<seq<nat>>)
    ensures (a + b) + c == a + (b + c)
  {
  }

  lemma Exhausted(k: Task, c: Config, i: nat, pre: seq<nat>, rest: seq<seq<nat>>)
    requires TaskOK(k) && NoSilentCycle(k) && ConfigOK(k, c) && i <= |k.t|
    requires i == |k.t| || k.t[i].state != c.state || k.t[i].inp == -1
    ensures Extended(pre, FromRow(k, c, i)) + rest == rest
  {
  }

  lemma SpeedStates(k: Task, v: Speed)
    requires TaskOK(k) && SpeedOK(k, v)
    ensures |v.flagstates| == |v.numlines| == |k.first| == k.n && forall i :: 0 <= i < |k.t| ==> 0 <= k.t[i].state < k.n
  {
    forall i | 0 <= i < |k.t| ensures 0 <= k.t[i].state < k.n {
      assert LineOK(k.t[i], k.n);
    }
  }

  // A line that is not viable cannot be followed.
  lemma NotViable(k: Task, c: Config, i: nat)
    requires TaskOK(k) && ConfigOK(k, c) && i < |k.t| && !Viable(k, c.ipos, i)
    ensures Follow(k, c, i).None?
  {
  }

  lemma {:induction false} SkipMany(k: Task, c: Config, i: nat, j: nat)
    requires TaskOK(k) && NoSilentCycle(k) && ConfigOK(k, c) && i <= j <= |k.t|
    requires forall l :: i <= l < j ==> k.t[l].state == c.state && k.t[l].inp != -1 && Follow(k, c, l).None?
    ensures FromRow(k, c, i) == FromRow(k, c, j) && RowWork(k, c, j) <= RowWork(k, c, i)
    decreases j - i
  {
    hide FromRow, RowWork, Follow, NoSilentCycle, TaskOK;
    if i < j {
      SkipInRow(k, c, i);
      SkipMany(k, c, i + 1, j);
    }
  }

  // Up to the first viable line, or to the end of the row, nothing is left out.
  lemma SkipUnviable(k: Task, c: Config, first: nat, last: nat, ptr: nat, found: bool, at: nat)
    requires TaskOK(k) && NoSilentCycle(k) && ConfigOK(k, c) && SortedRow(k, first, last) && first <= ptr <= last
    requires k.t[first].state == c.state && k.first[c.state] == first
             && (last + 1 < |k.t| ==> k.t[last + 1].state != c.state)
    requires Least(k, c.ipos, ptr, last, found, at)
    ensures found ==> at < |k.t| && k.t[at].state == c.state && k.t[at].inp != -1 && InRow(k, c.state, at)
                      && ptr <= at <= last
    ensures found ==> FromRow(k, c, ptr) == FromRow(k, c, at) && RowWork(k, c, at) <= RowWork(k, c, ptr)
    ensures !found ==> FromRow(k, c, ptr) == []
  {
    hide Eats, Follow, NoSilentCycle, FromRow, RowWork, ConfigOK;
    forall l | first <= l <= last ensures k.t[l].state == c.state && (k.t[l].inp == -1 <==> k.t[l].target == -1)
        && (k.t[l].inp == -1 ==> first == last) {
      assert LineOK(k.t[l], k.n);
    }
    forall l | ptr <= l < (if found then at else last + 1) ensures Follow(k, c, l).None? {
      NotViable(k, c, l);
    }
    if found {
      SkipMany(k, c, ptr, at);
    } else if k.t[ptr].inp != -1 {
      SkipMany(k, c, ptr, last + 1);
      FromOver(k, c, last + 1);
    } else {
      FromOver(k, c, ptr);
    }
  }

  lemma RowNext(k: Task, q: int, i: nat)
    requires i < |k.t| && k.t[i].state == q && k.t[i].inp != -1
    ensures Row(k, q, i) == [i] + Row(k, q, i + 1) && LinesOf(k, q, Row(k, q, i + 1)) && LinesOf(k, q, Row(k, q, i))
  {
    RowIs(k, q, i);
    RowIs(k, q, i + 1);
  }

  lemma LaterLines(k: Task, q: int, lines: seq<nat>)
    requires LinesOf(k, q, lines) && lines != []
    ensures LinesOf(k, q, lines[1..]) && lines[0] < |k.t| && k.t[lines[0]].state == q && k.t[lines[0]].inp != -1
  {
    assert lines[0] in lines;
  }

  lemma NothingFrom(k: Task, c: Config)
    requires TaskOK(k) && NoSilentCycle(k) && ConfigOK(k, c)
    ensures From(k, c, []) == []
  {
  }

  // The row goes on after line i.
  lemma NextInRow(k: Task, q: int, i: nat)
    requires 0 <= q < |k.first| && InRow(k, q, i) && i < |k.t| && k.t[i].state == q && k.t[i].inp != -1
    ensures InRow(k, q, i + 1)
  {
  }

  // The row is over, or has no arcs.
  lemma FromOver(k: Task, c: Config, i: nat)
    requires TaskOK(k) && NoSilentCycle(k) && ConfigOK(k, c) && i <= |k.t|
    requires i == |k.t| || k.t[i].state != c.state || k.t[i].target == -1
    ensures Row(k, c.state, i) == [] && FromRow(k, c, i) == []
  {
    if i < |k.t| {
      assert LineOK(k.t[i], k.n);
    }
  }

  lemma WordSigs(k: Task)
    requires TaskOK(k)
    ensures |k.sigs| == |k.word| && forall p :: 0 <= p < |k.sigs| ==> k.sigs[p].signumber >= IDENTITY
  {
  }

  // Past a larger symbol, or a line without arcs, there is nothing.
  lemma LargerLeft(k: Task, v: Speed, c: Config, ptr: nat, seeksym: int)
    requires TaskOK(k) && NoSilentCycle(k) && SpeedOK(k, v) && ConfigOK(k, c) && Fast(k, v, c.state)
    requires InRow(k, c.state, ptr) && ptr < |k.t| && k.t[ptr].state == c.state && k.t[ptr].inp != -1
    requires SymIn(k, ptr) == -1 || 0 <= seeksym < SymIn(k, ptr)
    requires c.ipos < |k.word| ==> seeksym == k.sigs[c.ipos].signumber
    ensures FromRow(k, c, ptr + 1) == []
  {
    hide FromRow, RowWork, Viable, Eats, NoSilentCycle, TaskOK, SpeedOK;
    SpeedStates(k, v);
    FastRow(k, v, c.state);
    RowReach(k, v, c.state, ptr);
    var first, last := k.first[c.state], LastLine(k, v, c.state);
    NoArcLine(k, ptr);
    AfterLast(k, first, last, ptr, c.ipos, seeksym);
    hide SortedRow;
    if ptr < last {
      Later(k, first, last, ptr);
      SkipUnviable(k, c, first, last, ptr + 1, false, 0);
    } else {
      FromOver(k, c, last + 1);
    }
  }

  lemma NoArcLine(k: Task, i: nat)
    requires TaskOK(k) && i < |k.t| && k.t[i].inp != -1
    ensures SymIn(k, i) != -1
  {
    assert LineOK(k.t[i], k.n);
  }

  lemma Later(k: Task, first: nat, last: nat, ptr: nat)
    requires first <= ptr < last
    ensures first <= ptr + 1 <= last
  {
  }

  lemma NoneLeft(pre: seq<nat>, rest: seq<seq<nat>>)
    ensures Extended(pre, []) + rest == rest
  {
  }

  // What is left after a step down is what was left before it.
  lemma LeftAfter(k: Task, stack: seq<Frame>, configs: seq<Config>, c: Config, lines: seq<nat>, stack': seq<Frame>,
                  next: Config)
    requires TaskOK(k) && NoSilentCycle(k) && ConfigOK(k, c) && |stack| == |configs|
    requires forall j :: 0 <= j < |stack| ==> ConfigOK(k, configs[j]) && stack[j].offset < |k.t|
    requires lines != [] && lines[0] < |k.t| && k.t[lines[0]].state == c.state && Follow(k, c, lines[0]) == Some(next)
    requires |stack'| == |stack| + 1 && stack'[..|stack|] == stack
    requires stack'[|stack|].offset == lines[0] && stack'[|stack|].rest == lines[1..]
    requires forall j :: 0 <= j < |stack'| ==> ConfigOK(k, (configs + [c])[j]) && stack'[j].offset < |k.t|
    ensures Extended(Offsets(stack'), All(k, next)) + Pending(k, stack', configs + [c], |stack'|) ==
              Extended(Offsets(stack), From(k, c, lines)) + Pending(k, stack, configs, |stack|)
    ensures Work(k, next) + 1 + PendingWork(k, stack', configs + [c], |stack'|)
              < WorkFrom(k, c, lines) + PendingWork(k, stack, configs, |stack|)
  {
    hide TaskOK, ConfigOK, Follow, All, From, Work, WorkFrom, NoSilentCycle;
    var m, configs' := |stack|, configs + [c];
    assert configs'[..m] == configs[..m] && stack[..m] == stack;
    PendingFrame(k, stack, configs, stack', configs', m);
    PendingTop(k, stack', configs', m);
    hide Pending, PendingWork, Extended;
    assert Offsets(stack') == Offsets(stack) + [lines[0]];
    assert Offsets(stack')[..m] == Offsets(stack);
    Descend(k, c, lines, Offsets(stack), Pending(k, stack, configs, m));
  }

  lemma PendingTop(k: Task, stack: seq<Frame>, configs: seq<Config>, m: nat)
    requires TaskOK(k) && NoSilentCycle(k) && m < |stack| == |configs|
    requires forall i :: 0 <= i < |stack| ==> ConfigOK(k, configs[i]) && stack[i].offset < |k.t|
    ensures Pending(k, stack, configs, m + 1) ==
              Extended(Offsets(stack)[..m], From(k, configs[m], stack[m].rest)) + Pending(k, stack, configs, m)
    ensures PendingWork(k, stack, configs, m + 1) == WorkFrom(k, configs[m], stack[m].rest) + 1
            + PendingWork(k, stack, configs, m)
  {
    hide TaskOK, ConfigOK, NoSilentCycle, From, WorkFrom;
  }

  // ---- Marks ----

  // Every mark was set by a visit on the path, at the position it shows.
  ghost predicate MarksOK(marks: seq<int>, visits: seq<Config>) {
    forall s :: 0 <= s < |marks| ==> marks[s] == 0 || Visited(visits, s, marks[s])
  }

  ghost predicate Visited(visits: seq<Config>, s: int, mark: int) {
    exists i :: 0 <= i < |visits| && visits[i].state == s && visits[i].ipos + 1 == mark
  }

  lemma VisitedMore(visits: seq<Config>, c: Config, s: int, mark: int)
    ensures Visited(visits, s, mark) ==> Visited(visits + [c], s, mark)
    ensures Visited(visits + [c], s, mark) ==> Visited(visits, s, mark) || (c.state == s && c.ipos + 1 == mark)
    ensures Visited(visits + [c], c.state, c.ipos + 1)
  {
    var all := visits + [c];
    assert all[|visits|] == c;
    if Visited(visits, s, mark) {
      var i :| 0 <= i < |visits| && visits[i].state == s && visits[i].ipos + 1 == mark;
      assert all[i] == visits[i];
    }
    if Visited(all, s, mark) {
      var i :| 0 <= i < |all| && all[i].state == s && all[i].ipos + 1 == mark;
      assert i < |visits| ==> all[i] == visits[i];
    }
  }

  lemma NoVisits(marks: seq<int>)
    requires MarksOK(marks, [])
    ensures forall s :: 0 <= s < |marks| ==> marks[s] == 0
  {
  }

  lemma MarkArrival(marks: seq<int>, visits: seq<Config>, c: Config)
    requires MarksOK(marks, visits) && 0 <= c.state < |marks|
    ensures MarksOK(marks[c.state := c.ipos + 1], visits + [c])
  {
    hide Visited;
    var marks' := marks[c.state := c.ipos + 1];
    forall s | 0 <= s < |marks'| ensures marks'[s] == 0 || Visited(visits + [c], s, marks'[s]) {
      VisitedMore(visits, c, s, marks[s]);
    }
  }

  lemma Unmark(marks: seq<int>, visits: seq<Config>, c: Config)
    requires MarksOK(marks, visits + [c]) && 0 <= c.state < |marks|
    ensures MarksOK(marks[c.state := 0], visits)
  {
    hide Visited;
    var marks' := marks[c.state := 0];
    forall s | 0 <= s < |marks'| ensures marks'[s] == 0 || Visited(visits, s, marks'[s]) {
      VisitedMore(visits, c, s, marks[s]);
    }
  }

  lemma RestoreMark(marks: seq<int>, visits: seq<Config>, c: Config)
    requires MarksOK(marks, visits + [c]) && 0 <= c.state < |marks|
    ensures MarksOK(marks[c.state := c.ipos + 1], visits + [c])
  {
    hide Visited;
    VisitedMore(visits, c, c.state, c.ipos + 1);
  }

  // The loop check never strikes, and no state is seen twice at a position.
  lemma MarkIsNew(k: Task, marks: seq<int>, stack: seq<Frame>, configs: seq<Config>, cur: Config)
    requires TaskOK(k) && NoSilentCycle(k) && Spelled(k, stack, configs, cur) && MarksOK(marks, configs)
             && |marks| == k.n
    ensures 0 <= cur.state < |marks| && marks[cur.state] != cur.ipos + 1
  {
    hide Spelled, NoSilentCycle;
    SpelledState(k, stack, configs, cur);
    if marks[cur.state] == cur.ipos + 1 {
      assert Visited(configs, cur.state, marks[cur.state]);
      var i :| 0 <= i < |configs| && configs[i].state == cur.state && configs[i].ipos + 1 == cur.ipos + 1;
      NotTwice(k, stack, configs, cur, i);
    }
  }

  lemma SpelledState(k: Task, stack: seq<Frame>, configs: seq<Config>, cur: Config)
    requires TaskOK(k) && Spelled(k, stack, configs, cur)
    ensures 0 <= cur.state < k.n && cur.ipos <= |k.word| && |configs| == |stack| && ConfigOK(k, cur)
  {
    hide TaskOK, FrameOK, Root;
  }

  lemma NotNegative(marks: seq<int>, visits: seq<Config>, s: int)
    requires MarksOK(marks, visits) && 0 <= s < |marks|
    ensures marks[s] >= 0
  {
    if marks[s] != 0 {
      assert Visited(visits, s, marks[s]);
    }
  }

  // The output buffer begins with what the stack prints, and every frame
  // remembers how much was printed before it.
  ghost predicate PrintedOK(k: Task, stack: seq<Frame>, configs: seq<Config>, opos: nat, outstring: string)
    requires TaskOK(k) && |stack| == |configs| && opos <= |outstring|
    requires Placed(k, stack)
  {
    && outstring[..opos] == Printed(k, stack, configs, |stack|)
    && (forall i :: 0 <= i < |stack| ==> stack[i].opos == |Printed(k, stack, configs, i)|)
  }

  lemma PrintedNext(k: Task, stack: seq<Frame>, configs: seq<Config>, m: nat)
    requires TaskOK(k) && m < |stack| == |configs| && Placed(k, stack)
    ensures Printed(k, stack, configs, m + 1) == Printed(k, stack, configs, m)
            + Text(k, configs[m].ipos, stack[m].offset)
  {
  }

  lemma PrintPush(k: Task, stack: seq<Frame>, configs: seq<Config>, opos: nat, outstring: string, f: Frame, c: Config,
                  text: string)
    requires TaskOK(k) && |stack| == |configs| && opos <= |outstring|
    requires Placed(k, stack)
    requires PrintedOK(k, stack, configs, opos, outstring) && f.opos == opos
    requires f.offset < |k.t| && k.t[f.offset].target != -1 && text == Text(k, c.ipos, f.offset)
    ensures opos + |text| <= |Overwrite(outstring, opos, text)|
    ensures PrintedOK(k, stack + [f], configs + [c], opos + |text|, Overwrite(outstring, opos, text))
  {
    hide TaskOK, Text, Printed, Overwrite;
    var stack', configs' := stack + [f], configs + [c];
    var m := |stack|;
    assert stack'[m] == f && configs'[m] == c;
    PrintedNext(k, stack', configs', m);
    forall i | 0 <= i < |stack'| ensures stack'[i].opos == |Printed(k, stack', configs', i)| {
      assert stack[..i] == stack'[..i] && configs[..i] == configs'[..i];
      PrintedFrame(k, stack, configs, stack', configs', i);
    }
    assert stack[..|stack|] == stack'[..|stack|] && configs[..|stack|] == configs'[..|stack|];
    PrintedFrame(k, stack, configs, stack', configs', |stack|);
  }

  // ---- The handle ----

  datatype Phase = Arrive | Mark | Search | Pop

  class ApplyHandle {
    var k: Task
    var speed: Speed
    const marks: array<int>
    const flagList: FlagList
    var stack: seq<Frame>
    var ptr: nat
    var currPtr: nat
    var iptr: Ptr
    var hasIndex: bool
    var ipos: nat
    var opos: nat
    var outstring: string
    ghost var configs: seq<Config>
    ghost var cur: Config
    ghost var rest: seq<nat>       // the lines still to try
    ghost var indexedRoot: bool    // what hasIndex is at the start state

    constructor (k: Task, speed: Speed)
      requires TaskOK(k) && NoSilentCycle(k) && SpeedOK(k, speed)
      ensures At(Pop) && this.k == k && this.speed == speed && stack == [] && cur == Root(k) && !indexedRoot
      ensures fresh(marks) && fresh(flagList)
    {
      this.k, this.speed := k, speed;
      marks := new int[k.n](_ => 0);
      flagList := new FlagList(FlagNames(k.flags));
      stack, configs := [], [];
      ptr, currPtr, ipos, opos, outstring := 0, 0, 0, 0, "";
      iptr, hasIndex := Nil, false;
      cur, rest, indexedRoot := Root(k), [], false;
      new;
      hide NoSilentCycle, TaskOK, ConfigOK, SpeedOK, Spelled, MarksOK, FlagNames;
      AtRoot(k, marks[..]);
      assert flagList.list == ClearedList(FlagNames(k.flags));
    }

    ghost predicate Fits()
      reads this, marks
    {
      TaskOK(k) && NoSilentCycle(k) && SpeedOK(k, speed) && marks.Length == k.n
    }

    // The stack spells a path from the root; the flags are those its arcs leave
    // behind, and outstring begins with what they print.
    ghost predicate OnPath()
      reads this, marks, flagList
    {
      && Fits() && Spelled(k, stack, configs, cur) && Stands(k, speed.index, stack, configs)
      && flagList.list == cur.flags && ipos == cur.ipos && Frames() && Wrote()
    }

    ghost predicate Wrote()
      requires Frames()
      reads this
    {
      opos <= |outstring| && PrintedOK(k, stack, configs, opos, outstring)
    }

    ghost predicate Frames()
      reads this
    {
      && TaskOK(k) && |stack| == |configs| && ConfigOK(k, cur)
      && forall i :: 0 <= i < |stack| ==> ConfigOK(k, configs[i]) && stack[i].offset < |k.t|
                                          && k.t[stack[i].offset].target != -1
    }

    // ptr, or iptr in an indexed state, is at the first line of rest.
    ghost predicate Cursor()
      reads this
    {
      if hasIndex then Walk(speed.index, iptr, rest)
      else
        iptr.Nil? && |k.first| == k.n && 0 <= cur.state < k.n && ptr < |k.t| && InRow(k, cur.state, ptr)
        && rest == Row(k, cur.state, ptr)
    }

    ghost predicate Bottom()
      reads this
    {
      (if stack == [] then hasIndex else stack[0].hasIndex) == indexedRoot
    }

    ghost predicate At(phase: Phase)
      reads this, marks, flagList
    {
      && OnPath() && Bottom() && ptr < |k.t| && k.t[ptr].state == cur.state
      && (!phase.Pop? ==> Cursor() && LinesOf(k, cur.state, rest))
      && (phase.Arrive? || phase.Mark? ==> ptr == k.first[cur.state])
      && (phase.Search? ==> marks[cur.state] == ipos + 1)
      && MarksOK(marks[..], if phase.Search? then configs + [cur] else configs)
    }

    // The accepting paths over these lines and those the frames have left.
    ghost function LeftOver(lines: seq<nat>): seq<seq<nat>>
      requires Fits() && Frames()
      reads this, marks
    {
      Extended(Offsets(stack), From(k, cur, lines)) + Pending(k, stack, configs, |stack|)
    }

    ghost function StepsOver(lines: seq<nat>): nat
      requires Fits() && Frames()
      reads this, marks
    {
      WorkFrom(k, cur, lines) + PendingWork(k, stack, configs, |stack|)
    }

    // The accepting paths still to be reported.
    ghost function Left(phase: Phase): seq<seq<nat>>
      requires Fits() && Frames()
      reads this, marks
    {
      match phase
      case Arrive => (if Final(k, cur) then [Offsets(stack)] else []) + LeftOver(rest)
      case Mark => LeftOver(rest)
      case Search => LeftOver(rest)
      case Pop => Pending(k, stack, configs, |stack|)
    }

    ghost function Steps(phase: Phase): nat
      requires Fits() && Frames()
      reads this, marks
    {
      match phase
      case Arrive => StepsOver(rest) + 2
      case Mark => StepsOver(rest) + 1
      case Search => StepsOver(rest)
      case Pop => PendingWork(k, stack, configs, |stack|)
    }

    // apply_mark_state.
    method MarkState()
      requires At(Mark)
      modifies marks
      ensures At(Search) && Left(Search) == old(Left(Mark)) && Steps(Search) < old(Steps(Mark))
    {
      hide TaskOK, NoSilentCycle, Spelled, Stands, MarksOK, PrintedOK, Printed, SpeedOK, From, WorkFrom, Pending,
           PendingWork, Extended, Walk, Row, LinesOf, InRow;
      ghost var before := marks[..];
      MarkIsNew(k, before, stack, configs, cur);
      var s := k.t[ptr].state;
      marks[s] := if marks[s] == ipos + 1 then -(ipos + 1) else ipos + 1;
      MarkArrival(before, configs, cur);
      assert marks[..] == before[cur.state := cur.ipos + 1];
    }

    // Unmark the exhausted state.
    method UnmarkState()
      requires At(Search)
      modifies marks
      ensures At(Pop) && stack == old(stack) && Left(Pop) == old(Left(Pop)) && Steps(Pop) == old(Steps(Pop))
    {
      hide TaskOK, NoSilentCycle, Spelled, MarksOK, Printed;
      ghost var before := marks[..];
      SpelledState(k, stack, configs, cur);
      marks[k.t[ptr].state] := 0;
      Unmark(before, configs, cur);
      assert marks[..] == before[cur.state := 0];
    }

    // apply_match_length and apply_match_str: what line i consumes, after its
    // flag, if it is one, has been checked.  The old entry of the flag is kept
    // when an obeyed flag changes the list.
    method MatchFlag(sym: int, ghost i: nat) returns (ok: bool, name: Option<string>, value: Option<string>, neg: bool)
      requires TaskOK(k) && ConfigOK(k, cur) && flagList.list == cur.flags && i < |k.t| && sym == SymIn(k, i)
      modifies flagList
      ensures ok <==> FlagsAfter(k, cur, i).Some?
      ensures !ok ==> flagList.list == cur.flags
      ensures ok ==> flagList.list == FlagsAfter(k, cur, i).value
      ensures ok ==> Undo(flagList.list, name, value, neg) == cur.flags
    {
      name, value, neg := None, None, false;
      if sym !in k.flags {
        return true, name, value, neg;
      }
      var f := k.flags[sym];
      var oldEntry := flagList.list[f.name];
      ok := flagList.CheckFlag(f);
      ghost var e := Check(oldEntry, f, Other(cur.flags, f)).1;
      assert flagList.list == cur.flags[f.name := e];
      if ok && (f.typ.Unify? || f.typ.Clear? || f.typ.Positive? || f.typ.Negative?) {
        name, value, neg := Some(f.name), oldEntry.value, oldEntry.neg;
        assert flagList.list[f.name := oldEntry] == cur.flags;
      } else {
        assert flagList.list == cur.flags;
      }
    }

    // apply_append and the step over line i; after it are the lines after.
    method GoAlong(i: nat, eatupi: nat, marksource: int, name: Option<string>, value: Option<string>, neg: bool,
                   ghost after: seq<nat>)
      requires Fits() && Spelled(k, stack, configs, cur) && Stands(k, speed.index, stack, configs)
      requires ipos == cur.ipos && Frames() && Wrote()
      requires i < |k.t| && k.t[i].state == cur.state && k.t[i].inp != -1 && Follow(k, cur, i).Some?
      requires Follow(k, cur, i).value.ipos == ipos + eatupi && flagList.list == Follow(k, cur, i).value.flags
      requires Undo(flagList.list, name, value, neg) == cur.flags && marksource == ipos + 1
      requires MarksOK(marks[..], configs + [cur]) && CanResume(i, after) && Bottom()
      modifies this`stack, this`ptr, this`iptr, this`hasIndex, this`ipos, this`opos, this`outstring, this`configs,
               this`cur,
               this`rest
      ensures At(Arrive) && Follow(k, old(cur), i) == Some(cur) && configs == old(configs) + [old(cur)]
      ensures |stack| == old(|stack|) + 1 && stack[..old(|stack|)] == old(stack) && rest == Arcs(k, cur)
      ensures stack[old(|stack|)].offset == i && stack[old(|stack|)].rest == after
    {
      hide NoSilentCycle, Printed, Spelled, Stands, MarksOK, PrintedOK, Follow, FlagsAfter, Eats, SpeedOK, Walk, Row,
           Arcs, OnPath, Cursor, LinesOf, InRow, TaskOK, ConfigOK, Text;
      Prints(i);
      NoIndex(i, after);
      var text := Text(k, ipos, i);
      var frame := Frame(i, iptr, hasIndex, ipos, opos, marksource, name, value, neg, after);
      ghost var next := Follow(k, cur, i).value;
      Pushed(frame, text, next);
      Advance(frame, eatupi, text, next);
      SetIptr();
      AtArrival();
    }

    // What holds of the stack with the frame.
    lemma Pushed(f: Frame, text: string, next: Config)
      requires Fits() && Spelled(k, stack, configs, cur) && Stands(k, speed.index, stack, configs)
      requires ipos == cur.ipos && Frames() && Wrote() && CanResume(f.offset, f.rest)
      requires f.offset < |k.t| && k.t[f.offset].state == cur.state && k.t[f.offset].inp != -1
      requires Follow(k, cur, f.offset) == Some(next) && SymOut(k, f.offset) in k.text && |k.sigs| == |k.word|
      requires text == Text(k, ipos, f.offset) && Undo(next.flags, f.flagname, f.flagvalue, f.flagneg) == cur.flags
      requires f.iptr == iptr && f.hasIndex == hasIndex && f.ipos == ipos && f.opos == opos && f.visitmark == ipos + 1
      ensures Spelled(k, stack + [f], configs + [cur], next) && ConfigOK(k, next)
      ensures 0 <= next.state < |k.first| && k.t[f.offset].target == next.state
      ensures Stands(k, speed.index, stack + [f], configs + [cur]) && Placed(k, stack + [f])
      ensures opos + |text| <= |Overwrite(outstring, opos, text)|
      ensures PrintedOK(k, stack + [f], configs + [cur], opos + |text|, Overwrite(outstring, opos, text))
    {
      hide NoSilentCycle, Printed, Spelled, Stands, PrintedOK, Follow, SpeedOK, Walk, Row, Text, Overwrite;
      PrintPush(k, stack, configs, opos, outstring, f, cur, text);
      Push(k, stack, configs, cur, f, next);
      PushStands(k, speed.index, stack, configs, cur, f);
      SpelledFacts(k, stack + [f], configs + [cur], next);
    }

    lemma AtArrival()
      requires Fits() && Spelled(k, stack, configs, cur) && Stands(k, speed.index, stack, configs) && Bottom()
      requires flagList.list == cur.flags && ipos == cur.ipos && opos <= |outstring|
      requires |stack| == |configs| && Placed(k, stack) && PrintedOK(k, stack, configs, opos, outstring)
      requires ConfigOK(k, cur) && 0 <= cur.state < |k.first| && ptr == k.first[cur.state]
      requires Cursor() && LinesOf(k, cur.state, rest) && MarksOK(marks[..], configs)
      ensures At(Arrive)
    {
      hide NoSilentCycle, Walk, Row, SpeedOK, Spelled, Stands, LinesOf, MarksOK, Cursor, PrintedOK, Printed;
      SpelledFacts(k, stack, configs, cur);
      assert FirstLine(k, cur.state);
    }

    // The frame is pushed, and the fields are those at the target.
    method Advance(frame: Frame, eatupi: nat, text: string, ghost next: Config)
      requires frame.offset < |k.t| && 0 <= k.t[frame.offset].target < |k.first| && opos <= |outstring|
      modifies this`stack, this`ptr, this`ipos, this`opos, this`outstring, this`configs, this`cur
      ensures stack == old(stack) + [frame] && configs == old(configs) + [old(cur)] && cur == next
      ensures ptr == k.first[k.t[frame.offset].target] && ipos == old(ipos) + eatupi
      ensures outstring == Overwrite(old(outstring), old(opos), text) && opos == old(opos) + |text|
    {
      outstring := Overwrite(outstring, opos, text);
      stack := stack + [frame];
      configs := configs + [cur];
      cur := next;
      ptr := k.first[k.t[frame.offset].target];
      ipos := ipos + eatupi;
      opos := opos + |text|;
    }

    // A frame for line i with the present pointers could be resumed.
    ghost predicate CanResume(i: nat, after: seq<nat>)
      requires |k.first| == k.n
      reads this
    {
      && 0 <= cur.state < k.n && LinesOf(k, cur.state, after)
      && (if hasIndex then Walk(speed.index, iptr, [i] + after)
          else iptr.Nil? && i < |k.t| && InRow(k, cur.state, i) && after == Row(k, cur.state, i + 1))
    }

    lemma NoIndex(i: nat, after: seq<nat>)
      requires Fits() && CanResume(i, after)
      ensures !speed.indexed ==> !hasIndex && iptr.Nil?
    {
      hide NoSilentCycle, TaskOK, Row, LinesOf;
      if hasIndex {
        WalkOn(speed.index, iptr, [i] + after);
      }
    }

    // apply_set_iptr.  Without an index for the direction it leaves all as it was:
    // where the state was taken for an indexed one, it has no lines to try.
    method SetIptr()
      requires Fits() && ConfigOK(k, cur) && ptr == k.first[cur.state] && ipos == cur.ipos
      requires !speed.indexed ==> iptr.Nil?
      modifies this`iptr, this`hasIndex, this`rest
      ensures Cursor() && LinesOf(k, cur.state, rest)
      ensures rest == if speed.indexed || !old(hasIndex) then Arcs(k, cur) else []
      ensures hasIndex == if speed.indexed then Indexed(k, cur.state) else old(hasIndex)
    {
      hide NoSilentCycle, Walk, Row, Follow, TaskOK, SpeedOK, Chained, NoDup, Indexed;
      ArcsAre(k, cur);
      StateSlots();
      rest := Arcs(k, cur);
      if !speed.indexed {
        NoLists();
        if hasIndex {
          rest := [];
          NoLines();
        }
        return;
      }
      iptr, hasIndex := Nil, false;
      var stateno := k.t[ptr].state;
      if Slot(stateno, EPSILON) in speed.index.heads {
        var seeksym := if ipos < |k.sigs| then k.sigs[ipos].signumber else k.beyond;
        hasIndex := true;
        var own := Slot(stateno, seeksym);
        var sidx := Head(own);
        if speed.index.heads[own].fsmptr == -1 {
          if speed.index.heads[own].next.Nil? {
            return;
          }
          sidx := speed.index.heads[own].next;
        }
        iptr := sidx;
        if speed.index.AtEnd(sidx) {
          iptr := Nil;
        }
      }
    }

    lemma NoLists()
      requires Fits() && ConfigOK(k, cur) && !speed.indexed
      ensures !Indexed(k, cur.state)
    {
      hide NoSilentCycle, Walk, Row, TaskOK;
    }

    lemma NoLines()
      requires iptr.Nil?
      ensures Walk(speed.index, iptr, [])
    {
    }

    // The slots of the state entered.
    lemma StateSlots()
      requires Fits() && ConfigOK(k, cur) && ptr == k.first[cur.state] && ipos == cur.ipos
      ensures ptr < |k.t| && k.t[ptr].state == cur.state >= 0 && |k.first| == k.n && InRow(k, cur.state, ptr)
      ensures Seek(k, ipos) >= 0
      ensures Indexed(k, cur.state) <==> Slot(cur.state, EPSILON) in speed.index.heads
      ensures Indexed(k, cur.state) ==>
                var s := Slot(cur.state, Seek(k, ipos));
                s in speed.index.heads && Arcs(k, cur) == Chained(k, s)
                && Walk(speed.index, Entered(speed.index, s), Chained(k, s))
      ensures !Indexed(k, cur.state) ==> Arcs(k, cur) == Row(k, cur.state, ptr)
    {
      hide NoSilentCycle, Walk, Row, Chained, Entered;
      assert FirstLine(k, cur.state);
    }

    lemma Prints(i: nat)
      requires Fits() && ConfigOK(k, cur) && i < |k.t| && Follow(k, cur, i).Some?
      ensures SymOut(k, i) in k.text && |k.sigs| == |k.word| && k.t[i].target != -1
    {
    }

    // The loop check, the match and, if all is well, the step over line i.
    method TryArc(i: nat, ghost after: seq<nat>) returns (followed: bool)
      requires TaskOK(k) && ConfigOK(k, cur) && |k.first| == k.n && i < |k.t|
      requires At(Search) && k.t[i].state == cur.state && k.t[i].inp != -1 && CanResume(i, after)
      modifies this`stack, this`ptr, this`currPtr, this`iptr, this`hasIndex, this`ipos, this`opos, this`outstring,
               this`configs, this`cur, this`rest, flagList
      ensures followed <==> Follow(k, old(cur), i).Some?
      ensures followed ==> Follow(k, old(cur), i) == Some(cur) && rest == Arcs(k, cur)
      ensures followed ==> configs == old(configs) + [old(cur)] && |stack| == old(|stack|) + 1 && At(Arrive)
      ensures followed ==> stack[..old(|stack|)] == old(stack) && stack[old(|stack|)].offset == i
                           && stack[old(|stack|)].rest == after
      ensures !followed ==> At(Search) && stack == old(stack) && configs == old(configs) && cur == old(cur)
                            && ptr == old(ptr)
      ensures !followed ==> iptr == old(iptr) && hasIndex == old(hasIndex) && rest == old(rest)
    {
      hide NoSilentCycle, Printed, Spelled, Stands, MarksOK, PrintedOK, Follow, FlagsAfter, Eats, Walk, Row, Arcs,
           LinesOf, InRow, TaskOK, SpeedOK;
      SpelledState(k, stack, configs, cur);
      var marksource := marks[k.t[ptr].state];
      var eatupi, name, value, neg;
      followed, eatupi, name, value, neg := MatchArc(i);
      if followed {
        GoAlong(i, eatupi, marksource, name, value, neg, after);
      }
    }

    // The loop check and the match.
    method MatchArc(i: nat)
      returns (ok: bool, eatupi: nat, name: Option<string>, value: Option<string>, neg: bool)
      requires At(Search) && i < |k.t| && k.t[i].state == cur.state && k.t[i].inp != -1
      modifies this`currPtr, flagList
      ensures ConfigOK(k, cur) && (ok <==> Follow(k, cur, i).Some?)
      ensures if ok then var next := Follow(k, cur, i).value;
                         && next.ipos == ipos + eatupi && flagList.list == next.flags
                         && Undo(flagList.list, name, value, neg) == cur.flags
              else flagList.list == cur.flags
    {
      hide NoSilentCycle, Printed, Spelled, Stands, MarksOK, PrintedOK, FlagsAfter, Eats, Walk, Row, LinesOf, InRow,
           SpeedOK;
      ArcTarget(i);
      SpelledState(k, stack, configs, cur);
      currPtr := i;
      ok, eatupi, name, value, neg := false, 0, None, None, false;
      var eats := Eats(k, ipos, i);
      if eats.Some? && -1 - ipos - eats.value != marks[k.t[i].target] {
        eatupi := eats.value;
        ok, name, value, neg := MatchFlag(SymIn(k, i), i);
      }
    }

    // The same for a line from which the paths of lines begin.
    method TryLine(i: nat, ghost lines: seq<nat>) returns (followed: bool)
      requires At(Search) && i < |k.t| && k.t[i].state == cur.state && k.t[i].inp != -1
      requires lines != [] && lines[0] == i && CanResume(i, lines[1..])
      modifies this`stack, this`ptr, this`currPtr, this`iptr, this`hasIndex, this`ipos, this`opos, this`outstring,
               this`configs, this`cur, this`rest, flagList
      ensures !followed ==> At(Search) && stack == old(stack) && configs == old(configs) && cur == old(cur)
                            && ptr == old(ptr)
      ensures !followed ==> iptr == old(iptr) && hasIndex == old(hasIndex) && rest == old(rest)
      ensures !followed ==> From(k, cur, lines) == From(k, cur, lines[1..])
                            && WorkFrom(k, cur, lines[1..]) < WorkFrom(k, cur, lines)
      ensures followed ==> At(Arrive)
      ensures followed ==> Left(Arrive) == old(LeftOver(lines)) && Steps(Arrive) < old(StepsOver(lines))
    {
      hide NoSilentCycle, Printed, Spelled, Stands, MarksOK, PrintedOK, From, WorkFrom, All, Work, Pending, PendingWork,
           SpeedOK, InRow, TaskOK, ConfigOK, Follow, Row, Arcs, Walk, LinesOf, Extended, CanResume, Cursor;
      SpeedStates(k, speed);
      SpelledState(k, stack, configs, cur);
      followed := TryArc(i, lines[1..]);
      if followed {
        LeftAfter(k, old(stack), old(configs), old(cur), lines, stack, cur);
        Entering();
      } else {
        Skip(k, cur, lines);
      }
    }

    // Entering a state with all its lines still to try.
    lemma Entering()
      requires Fits() && Frames() && rest == Arcs(k, cur)
      ensures Left(Arrive) == Extended(Offsets(stack), All(k, cur)) + Pending(k, stack, configs, |stack|)
      ensures Steps(Arrive) == Work(k, cur) + 1 + PendingWork(k, stack, configs, |stack|)
    {
      hide NoSilentCycle, TaskOK, ConfigOK, From, WorkFrom, All, Pending, PendingWork, Extended, Arcs, Final;
      Arriving(k, cur, Offsets(stack), Pending(k, stack, configs, |stack|));
    }

    // Targets are states, and no mark there is negative.
    lemma ArcTarget(i: nat)
      requires At(Search) && i < |k.t| && k.t[i].inp != -1
      ensures 0 <= k.t[i].target < marks.Length && marks[k.t[i].target] >= 0 && |k.sigs| == |k.word|
    {
      hide NoSilentCycle, Printed, Spelled, PrintedOK, Visited;
      assert LineOK(k.t[i], k.n);
      NotNegative(marks[..], configs + [cur], k.t[i].target);
    }

    // No line of rest leads on.
    lemma RestOver()
      requires Fits() && Frames() && From(k, cur, rest) == []
      ensures Left(Pop) == Left(Search) && Steps(Pop) < Steps(Search)
    {
      hide NoSilentCycle, TaskOK, ConfigOK, From, WorkFrom, Pending, PendingWork, Extended;
      NoneLeft(Offsets(stack), Pending(k, stack, configs, |stack|));
    }

    // Arc by arc: the first line from ptr on that can be followed.
    method ScanArcs() returns (followed: bool)
      requires At(Search) && !hasIndex
      modifies this`stack, this`ptr, this`currPtr, this`iptr, this`hasIndex, this`ipos, this`opos, this`outstring,
               this`configs, this`cur, this`rest, flagList
      ensures followed ==> At(Arrive) && Left(Arrive) == old(Left(Search)) && Steps(Arrive) < old(Steps(Search))
      ensures !followed ==> At(Search) && Left(Pop) == old(Left(Search)) && Steps(Pop) < old(Steps(Search))
    {
      hide NoSilentCycle, Printed, Spelled, Stands, MarksOK, PrintedOK, From, WorkFrom, All, Work, Pending, PendingWork,
           SpeedOK, InRow, TaskOK, ConfigOK, Follow, Row, Arcs, Walk, LinesOf;
      SpelledState(k, stack, configs, cur);
      SpeedStates(k, speed);
      var i := ptr;
      while i < |k.t| && k.t[i].state == k.t[ptr].state && k.t[i].inp != -1
        invariant At(Search) && stack == old(stack) && configs == old(configs) && cur == old(cur) && ptr == old(ptr)
        invariant !hasIndex && rest == old(rest) && i <= |k.t| && InRow(k, cur.state, i)
        invariant FromRow(k, cur, i) == From(k, cur, rest) && RowWork(k, cur, i) <= WorkFrom(k, cur, rest)
        decreases |k.t| - i
      {
        RowNext(k, cur.state, i);
        followed := TryLine(i, Row(k, cur.state, i));
        if followed {
          return;
        }
        NextInRow(k, cur.state, i);
        i := i + 1;
      }
      followed := false;
      Exhausted(k, cur, i, Offsets(stack), Pending(k, stack, configs, |stack|));
      assert [] + Pending(k, stack, configs, |stack|) == Pending(k, stack, configs, |stack|);
    }

    // The line at iptr is followed, or the next one comes up.
    method IndexArc() returns (followed: bool)
      requires At(Search) && hasIndex && !speed.index.AtEnd(iptr)
      modifies this`stack, this`ptr, this`currPtr, this`iptr, this`hasIndex, this`ipos, this`opos, this`outstring,
               this`configs, this`cur, this`rest, flagList
      ensures followed ==> At(Arrive) && Left(Arrive) == old(LeftOver(rest)) && Steps(Arrive) < old(StepsOver(rest))
      ensures !followed ==> At(Search) && hasIndex && stack == old(stack) && configs == old(configs) && cur == old(cur)
      ensures !followed ==> From(k, cur, rest) == old(From(k, cur, rest))
      ensures !followed ==> WorkFrom(k, cur, rest) < old(WorkFrom(k, cur, rest)) && |rest| < old(|rest|)
    {
      hide NoSilentCycle, Printed, Spelled, Stands, MarksOK, PrintedOK, From, WorkFrom, All, Work, Pending, PendingWork,
           SpeedOK, InRow, TaskOK, ConfigOK, Follow, Row, Arcs, Walk, LinesOf, Extended, Left, Steps;
      ghost var lines := rest;
      SpelledState(k, stack, configs, cur);
      ToLine();
      followed := TryLine(ptr, lines);
      if !followed {
        NextCell();
      }
    }

    method ToLine()
      requires At(Search) && hasIndex && !speed.index.AtEnd(iptr)
      modifies this`ptr, this`currPtr
      ensures At(Search) && |k.first| == k.n && rest != [] && rest[0] == ptr && k.t[ptr].inp != -1
              && CanResume(ptr, rest[1..])
    {
      hide NoSilentCycle, Printed, Spelled, Stands, MarksOK, PrintedOK, SpeedOK, ConfigOK, TaskOK, Walk;
      SpelledState(k, stack, configs, cur);
      SpeedStates(k, speed);
      WalkOn(speed.index, iptr, rest);
      LaterLines(k, cur.state, rest);
      assert rest == [rest[0]] + rest[1..];
      ptr, currPtr := speed.index.At(iptr).fsmptr, speed.index.At(iptr).fsmptr;
    }

    method NextCell()
      requires At(Search) && hasIndex && !speed.index.AtEnd(iptr)
      modifies this`iptr, this`rest
      ensures At(Search) && old(rest) != [] && rest == old(rest)[1..]
    {
      hide NoSilentCycle, Printed, Spelled, Stands, MarksOK, PrintedOK, SpeedOK, ConfigOK, TaskOK, Walk;
      WalkOn(speed.index, iptr, rest);
      LaterLines(k, cur.state, rest);
      iptr := speed.index.At(iptr).next;
      rest := rest[1..];
    }

    // By the index: the first line of the lists that can be followed.
    method IndexArcs() returns (followed: bool)
      requires At(Search) && hasIndex
      modifies this`stack, this`ptr, this`currPtr, this`iptr, this`hasIndex, this`ipos, this`opos, this`outstring,
               this`configs, this`cur, this`rest, flagList
      ensures followed ==> At(Arrive) && Left(Arrive) == old(Left(Search)) && Steps(Arrive) < old(Steps(Search))
      ensures !followed ==> At(Search) && Left(Pop) == old(Left(Search)) && Steps(Pop) < old(Steps(Search))
    {
      hide NoSilentCycle, Printed, Spelled, Stands, MarksOK, PrintedOK, From, WorkFrom, All, Work, Pending, PendingWork,
           SpeedOK, InRow, TaskOK, ConfigOK, Follow, Row, Arcs, Walk, LinesOf, Wrote, Extended;
      followed := false;
      while !speed.index.AtEnd(iptr)
        invariant At(Search) && hasIndex && stack == old(stack) && configs == old(configs) && cur == old(cur)
        invariant From(k, cur, rest) == old(From(k, cur, rest)) && WorkFrom(k, cur, rest) <= old(WorkFrom(k, cur, rest))
        decreases |rest|
      {
        followed := IndexArc();
        if followed {
          return;
        }
      }
      WalkOn(speed.index, iptr, rest);
      NothingFrom(k, cur);
      RestOver();
    }

    // apply_binarysearch: the first line from ptr on that may be followed.
    method FindArc(last: int) returns (found: bool, at: nat)
      requires At(Search) && !hasIndex && |k.first| == k.n && 0 <= cur.state < |speed.flagstates|
      requires Fast(k, speed, cur.state) && |speed.numlines| == k.n && last == LastLine(k, speed, cur.state)
      ensures found ==> at < |k.t| && k.t[at].state == cur.state && k.t[at].inp != -1 && InRow(k, cur.state, at)
                        && ptr <= at
      ensures found ==> From(k, cur, Row(k, cur.state, at)) == From(k, cur, rest)
      ensures found ==> WorkFrom(k, cur, Row(k, cur.state, at)) <= WorkFrom(k, cur, rest)
      ensures !found ==> From(k, cur, rest) == []
    {
      hide NoSilentCycle, Printed, Spelled, Stands, MarksOK, PrintedOK, From, WorkFrom, All, Work, Pending, PendingWork,
           SortedRow, Least, SpeedOK, TaskOK, ConfigOK, Follow, Extended, InRow, Fast, LastLine, Row, Arcs, Walk,
           LinesOf;
      SpelledState(k, stack, configs, cur);
      FastRow(k, speed, cur.state);
      RowReach(k, speed, cur.state, ptr);
      ghost var first := k.first[cur.state];
      found, at := BinarySearch(k, first, last, ptr, ipos);
      SkipUnviable(k, cur, first, last, ptr, found, at);
    }

    // The line found is followed, or the search goes on after it, or is over.
    method SearchArc(last: int) returns (followed: bool, over: bool)
      requires At(Search) && !hasIndex && |k.first| == k.n && 0 <= cur.state < |speed.flagstates|
      requires Fast(k, speed, cur.state) && |speed.numlines| == k.n && last == LastLine(k, speed, cur.state)
      modifies this`stack, this`ptr, this`currPtr, this`iptr, this`hasIndex, this`ipos, this`opos, this`outstring,
               this`configs, this`cur, this`rest, flagList
      ensures followed ==> At(Arrive) && Left(Arrive) == old(LeftOver(rest)) && Steps(Arrive) < old(StepsOver(rest))
      ensures !followed ==> At(Search) && !hasIndex && stack == old(stack) && configs == old(configs) && cur == old(cur)
      ensures !followed && !over ==> From(k, cur, rest) == old(From(k, cur, rest)) && ptr > old(ptr)
      ensures !followed ==> WorkFrom(k, cur, rest) <= old(WorkFrom(k, cur, rest))
      ensures !followed && over ==> From(k, cur, rest) == [] == old(From(k, cur, rest))
    {
      hide NoSilentCycle, Printed, Spelled, Stands, MarksOK, PrintedOK, From, WorkFrom, All, Work, Pending, PendingWork,
           SpeedOK, TaskOK, ConfigOK, Follow, Extended, InRow, Fast, LastLine, Row, Arcs, Walk, LinesOf, Left, Steps;
      SpelledState(k, stack, configs, cur);
      ghost var q := cur.state;
      var found, at := FindArc(last);
      if !found {
        return false, true;
      }
      RowNext(k, q, at);
      followed := TryLine(at, Row(k, q, at));
      over := false;
      if !followed {
        if at + 1 == |k.t| || k.t[at].state != k.t[at + 1].state {
          FromOver(k, cur, at + 1);
          return false, true;
        }
        NextInRow(k, q, at);
        GoOn(at + 1);
        if k.t[ptr].target == -1 {
          FromOver(k, cur, ptr);
          over := true;
        }
      }
    }

    // Past the line found.
    method GoOn(i: nat)
      requires At(Search) && !hasIndex && i < |k.t| && k.t[i].state == cur.state && InRow(k, cur.state, i)
      modifies this`ptr, this`currPtr, this`rest
      ensures At(Search) && ptr == i && rest == Row(k, cur.state, i)
    {
      hide NoSilentCycle, Printed, Spelled, Stands, MarksOK, PrintedOK, SpeedOK, ConfigOK, Walk;
      RowIs(k, cur.state, i);
      ptr, currPtr := i, i;
      rest := Row(k, cur.state, i);
    }

    // By bisection, in a state without flags.
    method SearchArcs() returns (followed: bool)
      requires At(Search) && !hasIndex && Fast(k, speed, cur.state)
      modifies this`stack, this`ptr, this`currPtr, this`iptr, this`hasIndex, this`ipos, this`opos, this`outstring,
               this`configs, this`cur, this`rest, flagList
      ensures followed ==> At(Arrive) && Left(Arrive) == old(Left(Search)) && Steps(Arrive) < old(Steps(Search))
      ensures !followed ==> At(Search) && Left(Pop) == old(Left(Search)) && Steps(Pop) < old(Steps(Search))
    {
      hide NoSilentCycle, Printed, Spelled, Stands, MarksOK, PrintedOK, From, WorkFrom, All, Work, Pending, PendingWork,
           SpeedOK, TaskOK, ConfigOK, Follow, Extended, InRow, Fast, LastLine, Row, Arcs, Walk, LinesOf, Wrote;
      SpelledState(k, stack, configs, cur);
      SpeedStates(k, speed);
      var last := LastLine(k, speed, k.t[ptr].state);
      followed := false;
      while true
        invariant At(Search) && !hasIndex && stack == old(stack) && configs == old(configs) && cur == old(cur)
        invariant From(k, cur, rest) == old(From(k, cur, rest)) && WorkFrom(k, cur, rest) <= old(WorkFrom(k, cur, rest))
        decreases |k.t| - ptr
      {
        var over;
        followed, over := SearchArc(last);
        if followed {
          return;
        }
        if over {
          RestOver();
          return;
        }
      }
    }

    // apply_follow_next_arc.
    method FollowNextArc() returns (followed: bool)
      requires At(Search)
      modifies this`stack, this`ptr, this`currPtr, this`iptr, this`hasIndex, this`ipos, this`opos, this`outstring,
               this`configs, this`cur, this`rest, flagList
      ensures followed ==> At(Arrive) && Left(Arrive) == old(Left(Search)) && Steps(Arrive) < old(Steps(Search))
      ensures !followed ==> At(Search) && Left(Pop) == old(Left(Search)) && Steps(Pop) < old(Steps(Search))
    {
      hide NoSilentCycle, Printed, Spelled, Stands, MarksOK, PrintedOK, From, WorkFrom, All, Work, Pending, PendingWork,
           TaskOK, SpeedOK, Row, Arcs, Walk, LinesOf;
      SpeedStates(k, speed);
      if hasIndex {
        followed := IndexArcs();
      } else if Fast(k, speed, k.t[ptr].state) {
        followed := SearchArcs();
      } else {
        followed := ScanArcs();
      }
    }

    // apply_stack_pop: back to the line followed last, with the mark and the
    // flag as they were.
    method PopFrame()
      requires At(Pop) && stack != []
      modifies this`stack, this`ptr, this`iptr, this`hasIndex, this`ipos, this`opos, this`configs, this`cur, this`rest,
               marks,
               flagList
      ensures At(Search) && rest != [] && rest[0] == ptr && k.t[ptr].inp != -1
      ensures LeftOver(rest[1..]) == old(Left(Pop)) && StepsOver(rest[1..]) < old(Steps(Pop))
    {
      hide NoSilentCycle, Printed, Spelled, Stands, MarksOK, PrintedOK, From, WorkFrom, Follow, Pending, PendingWork,
           TaskOK, ConfigOK, SpeedOK, InRow, Walk, Row, LinesOf, Undo;
      ghost var marks0 := marks[..];
      LastFrame();
      PoppedPending(k, stack, configs);
      Restore();
      assert marks[..] == marks0[cur.state := cur.ipos + 1];
      AtSearch();
    }

    // What holds of the stack without its last frame.
    lemma LastFrame()
      requires At(Pop) && stack != []
      ensures Fits() && |configs| == |stack|
      ensures var m := |stack| - 1;
              Resumes(k, speed.index, stack[..m], configs[..m], stack[m], configs[m], marks[..], flagList.list,
                      outstring)
    {
      hide NoSilentCycle, Printed, Spelled, Stands, MarksOK, PrintedOK, Follow, Pending, PendingWork, TaskOK, ConfigOK,
           SpeedOK, FrameOK, InRow, Walk, Row, LinesOf, Undo;
      ghost var m := |stack| - 1;
      Popped(k, stack, configs, cur);
      PoppedFrame(k, stack[m], configs[m], cur);
      PoppedPrint(k, stack, configs, opos, outstring);
      PoppedStands(k, speed.index, stack, configs);
      assert configs == configs[..m] + [configs[m]];
      RestoreMark(marks[..], configs[..m], configs[m]);
    }

    lemma AtSearch()
      requires Fits() && Spelled(k, stack, configs, cur) && Stands(k, speed.index, stack, configs) && Bottom()
      requires flagList.list == cur.flags && ipos == cur.ipos && opos <= |outstring|
      requires |stack| == |configs| && Placed(k, stack) && PrintedOK(k, stack, configs, opos, outstring)
      requires 0 <= cur.state < k.n && ptr < |k.t| && k.t[ptr].state == cur.state && marks[cur.state] == ipos + 1
      requires Cursor() && LinesOf(k, cur.state, rest) && MarksOK(marks[..], configs + [cur])
      ensures At(Search) && Frames()
    {
      hide NoSilentCycle, Walk, Row, SpeedOK, Spelled, Stands, LinesOf, MarksOK, Cursor, PrintedOK, Printed;
      SpelledFacts(k, stack, configs, cur);
    }

    // The fields as the frame on top has them.
    method Restore()
      requires stack != [] && |configs| == |stack|
      requires var f := stack[|stack| - 1]; f.offset < |k.t| && 0 <= k.t[f.offset].state < marks.Length
      modifies this`stack, this`ptr, this`iptr, this`hasIndex, this`ipos, this`opos, this`configs, this`cur, this`rest,
               marks,
               flagList
      ensures var m := |old(stack)| - 1; var f := old(stack)[m];
              && stack == old(stack)[..m] && configs == old(configs)[..m] && cur == old(configs)[m]
              && ptr == f.offset && iptr == f.iptr && hasIndex == f.hasIndex && ipos == f.ipos && opos == f.opos
              && rest == [f.offset] + f.rest
      ensures var f := old(stack)[|old(stack)| - 1];
              && f.offset < |k.t| && 0 <= k.t[f.offset].state < marks.Length
              && marks[..] == old(marks[..])[k.t[f.offset].state := f.visitmark]
              && flagList.list == Undo(old(flagList.list), f.flagname, f.flagvalue, f.flagneg)
    {
      var ss := stack[|stack| - 1];
      stack := stack[..|stack| - 1];
      ptr, iptr, hasIndex, ipos, opos := ss.offset, ss.iptr, ss.hasIndex, ss.ipos, ss.opos;
      rest := [ss.offset] + ss.rest;
      marks[k.t[ptr].state] := ss.visitmark;
      RestoreFlag(ss.flagname, ss.flagvalue, ss.flagneg);
      cur, configs := configs[|configs| - 1], configs[..|configs| - 1];
    }

    method RestoreFlag(name: Option<string>, value: Option<string>, neg: bool)
      modifies flagList
      ensures flagList.list == Undo(old(flagList.list), name, value, neg)
    {
      if name.Some? {
        flagList.list := flagList.list[name.value := Entry(value, neg)];
      }
    }

    // apply_at_last_arc and apply_skip_this_arc after a pop.
    method NextAfterPop() returns (more: bool)
      requires At(Search) && rest != [] && rest[0] == ptr && k.t[ptr].inp != -1
      modifies this`ptr, this`iptr, this`rest, marks
      ensures stack == old(stack) && configs == old(configs) && cur == old(cur)
      ensures rest == old(rest[1..]) && At(if more then Search else Pop)
      ensures !more ==> From(k, cur, rest) == []
    {
      hide NoSilentCycle, Printed, Spelled, Stands, MarksOK, PrintedOK, From, TaskOK, SpeedOK, Row, Arcs, LinesOf, Walk,
           Left, Steps;
      var last := AtLastArc();
      if last {
        UnmarkState();
        rest := rest[1..];
        return false;
      }
      SkipThisArc();
      more := true;
    }

    method SkipThisArc()
      requires At(Search) && rest != [] && rest[0] == ptr && k.t[ptr].inp != -1
      requires !hasIndex ==> ptr + 1 < |k.t| && InRow(k, cur.state, ptr + 1) && k.t[ptr + 1].state == cur.state
      modifies this`ptr, this`iptr, this`rest
      ensures At(Search) && rest == old(rest[1..])
    {
      hide NoSilentCycle, Printed, Spelled, Stands, MarksOK, PrintedOK, TaskOK, SpeedOK, Row, Arcs, LinesOf, Walk;
      LaterLines(k, cur.state, rest);
      if hasIndex {
        WalkOn(speed.index, iptr, rest);
      }
      if !iptr.Nil? {
        ptr := speed.index.At(iptr).fsmptr;
        iptr := speed.index.At(iptr).next;
      } else {
        RowNext(k, cur.state, ptr);
        ptr := ptr + 1;
      }
      rest := rest[1..];
    }

    // What is left after NextAfterPop.
    lemma LeftAfterPop(phase: Phase)
      requires Fits() && Frames() && (phase.Search? || (phase.Pop? && From(k, cur, rest) == []))
      ensures Left(phase) == LeftOver(rest) && Steps(phase) <= StepsOver(rest)
    {
      hide NoSilentCycle, TaskOK, From, WorkFrom, Pending, PendingWork, ConfigOK, Extended;
      NoneLeft(Offsets(stack), Pending(k, stack, configs, |stack|));
    }

    // apply_at_last_arc: nothing after the arc at ptr can be followed.
    method AtLastArc() returns (last: bool)
      requires At(Search) && rest != [] && rest[0] == ptr && k.t[ptr].inp != -1
      ensures last ==> From(k, cur, rest[1..]) == []
      ensures !last && !hasIndex ==> ptr + 1 < |k.t| && InRow(k, cur.state, ptr + 1) && k.t[ptr + 1].state == cur.state
    {
      hide NoSilentCycle, Printed, Spelled, Stands, MarksOK, PrintedOK, Pending, PendingWork, From, WorkFrom, TaskOK,
           SpeedOK, SortedRow, Row, Arcs, LinesOf, Walk;
      SpelledState(k, stack, configs, cur);
      SpeedStates(k, speed);
      if hasIndex {
        NothingFrom(k, cur);
        WalkOn(speed.index, iptr, rest);
        WalkOn(speed.index, speed.index.At(iptr).next, rest[1..]);
        return speed.index.AtEnd(speed.index.At(iptr).next);
      }
      RowNext(k, cur.state, ptr);
      if ptr + 1 == |k.t| || k.t[ptr].state != k.t[ptr + 1].state {
        FromOver(k, cur, ptr + 1);
        return true;
      }
      NextInRow(k, cur.state, ptr);
      last := false;
      if Fast(k, speed, k.t[ptr].state) {
        WordSigs(k);
        var seeksym := if ipos < |k.word| then k.sigs[ipos].signumber else k.beyond;
        var nextsym := SymIn(k, ptr);
        if nextsym == -1 || seeksym < nextsym {
          LargerLeft(k, speed, cur, ptr, seeksym);
          last := true;
        }
      }
    }

    lemma StackPrints()
      requires OnPath()
      ensures outstring[..opos] == Output(k, Root(k), Offsets(stack))
    {
      hide NoSilentCycle, SpeedOK, TaskOK, Spelled, Printed, Root;
      SpelledFacts(k, stack, configs, cur);
      PrintedIsOutput(k, stack, configs, cur, |stack|, []);
      assert Offsets(stack) + [] == Offsets(stack) && Offsets(stack)[|stack|..] + [] == [];
    }

    // apply_net: the next result, or None when there is none left.
    method ApplyNet(resume: bool) returns (result: Option<string>)
      requires At(if resume then Mark else Arrive)
      modifies this`stack, this`ptr, this`currPtr, this`iptr, this`hasIndex, this`ipos, this`opos, this`outstring,
               this`configs, this`cur, this`rest, marks, flagList
      ensures var todo := old(Left(if resume then Mark else Arrive));
              if todo == [] then result.None? && stack == [] && At(Pop)
              else result == Some(Output(k, Root(k), todo[0])) && At(Mark) && Left(Mark) == todo[1..]
    {
      hide NoSilentCycle, Printed, Spelled, Stands, MarksOK, PrintedOK, From, WorkFrom, Work, All, Output, TaskOK,
           ConfigOK, Walk, Row, Arcs, LinesOf, Pending, PendingWork, Extended, SpeedOK;
      var phase := if resume then Mark else Arrive;
      ghost var todo := Left(phase);
      while !(phase.Pop? && stack == [])
        invariant At(phase) && Left(phase) == todo && k == old(k)
        decreases Steps(phase)
      {
        match phase {
          case Arrive =>
            if k.t[ptr].final && ipos == |k.word| {
              StackPrints();
              assert todo == [Offsets(stack)] + Left(Mark);
              return Some(outstring[..opos]);
            }
            phase := Mark;
          case Mark =>
            MarkState();
            phase := Search;
          case Search =>
            var followed := FollowNextArc();
            if followed {
              phase := Arrive;
            } else {
              UnmarkState();
              phase := Pop;
            }
          case Pop =>
            PopFrame();
            var more := NextAfterPop();
            phase := if more then Search else Pop;
            LeftAfterPop(phase);
        }
      }
      NothingLeft();
      result := None;
    }

    lemma NothingLeft()
      requires Fits() && Frames() && stack == []
      ensures Left(Pop) == []
    {
    }

    // apply_force_clear_stack: an unfinished search leaves no marks behind.
    method ForceClearStack()
      requires At(Pop)
      modifies this`stack, this`ptr, this`iptr, this`hasIndex, this`ipos, this`opos, this`configs, this`cur, this`rest,
               marks,
               flagList
      ensures Fits() && stack == [] && hasIndex == indexedRoot && flagList.list.Keys == FlagNames(k.flags)
              && forall q :: 0 <= q < marks.Length ==> marks[q] == 0
    {
      hide NoSilentCycle, Printed, Spelled, MarksOK, PrintedOK, From, WorkFrom, Pending, PendingWork;
      if stack != [] {
        ClearMark();
        while stack != []
          invariant At(Pop)
          decreases Steps(Pop)
        {
          PopFrame();
          MoreWork();
          UnmarkState();
        }
      }
      NoMarks();
      SpelledState(k, stack, configs, cur);
      KeysOf(k, cur);
    }

    method ClearMark()
      requires At(Pop)
      modifies marks
      ensures At(Pop)
    {
      hide NoSilentCycle, Printed, Spelled, PrintedOK, Visited;
      SpelledState(k, stack, configs, cur);
      marks[k.t[ptr].state] := 0;
    }

    lemma MoreWork()
      requires At(Search) && rest != []
      ensures Steps(Pop) <= StepsOver(rest[1..])
    {
      hide NoSilentCycle, Printed, Spelled, Stands, MarksOK, PrintedOK, WorkFrom, Work, PendingWork, TaskOK, ConfigOK,
           InRow, Walk, Row;
    }

    lemma NoMarks()
      requires At(Pop) && stack == []
      ensures forall q :: 0 <= q < marks.Length ==> marks[q] == 0
    {
      hide NoSilentCycle, Printed, PrintedOK, MarksOK;
      assert configs == [];
      NoVisits(marks[..]);
    }

    // The paths in todo are still to be reported.
    ghost predicate Owes(todo: seq<seq<nat>>)
      reads this, marks, flagList
    {
      At(Mark) && Left(Mark) == todo
    }

    // The next call with NULL.
    method Resume(ghost todo: seq<seq<nat>>) returns (result: Option<string>)
      requires Owes(todo) && ConfigOK(k, Root(k))
      modifies this`stack, this`ptr, this`currPtr, this`iptr, this`hasIndex, this`ipos, this`opos, this`outstring,
               this`configs, this`cur, this`rest, marks, flagList
      ensures if todo == [] then result.None? && stack == [] && At(Pop)
              else result == Some(Output(k, Root(k), todo[0])) && Owes(todo[1..])
    {
      hide NoSilentCycle, Output, TaskOK, Spelled, PrintedOK, MarksOK, ConfigOK;
      result := ApplyNet(true);
    }

    // apply_down or apply_up with a new word.
    method Start(k': Task, v: Speed) returns (result: Option<string>)
      requires At(Pop) && TaskOK(k') && NoSilentCycle(k') && SameNet(k, k') && SpeedOK(Towards(k, k'), v)
      modifies this, marks, flagList
      ensures k == k' && speed == v
      ensures indexedRoot == if v.indexed then Indexed(k', 0) else old(indexedRoot)
      ensures var todo := Found(k, !v.indexed && old(indexedRoot));
              if todo == [] then result.None? && stack == [] && At(Pop)
              else result == Some(Output(k, Root(k), todo[0])) && Owes(todo[1..])
    {
      hide NoSilentCycle, Output, From, TaskOK, All, Spelled, Stands, PrintedOK, Printed, MarksOK, FlagNames, SpeedOK,
           Arcs, Row, Walk, OnPath, Left, Found, Indexed, At;
      ForceClearStack();
      SpeedKept(Towards(k, k'), k', v);
      k, speed := k', v;
      Reset();
      StartLeft(!v.indexed && old(indexedRoot));
      result := ApplyNet(false);
    }

    lemma StartLeft(disturbed: bool)
      requires At(Arrive) && stack == [] && configs == [] && cur == Root(k)
      requires rest == if disturbed then [] else Arcs(k, cur)
      ensures Left(Arrive) == Found(k, disturbed)
    {
      hide NoSilentCycle, TaskOK, All, Spelled, PrintedOK, MarksOK, Arcs, Final, From;
      assert Offsets(stack) == [];
      if disturbed {
        NothingFrom(k, cur);
        NoneLeft([], Pending(k, stack, configs, |stack|));
      } else {
        Entering();
        var all := All(k, cur);
        forall j | 0 <= j < |all| ensures [] + all[j] == all[j] {
        }
        assert Extended([], all) == all;
      }
    }

    // The start of apply_net.
    method Reset()
      requires TaskOK(k) && NoSilentCycle(k) && SpeedOK(k, speed) && marks.Length == k.n && stack == []
      requires (forall q :: 0 <= q < marks.Length ==> marks[q] == 0) && flagList.list.Keys == FlagNames(k.flags)
      modifies this`ptr, this`iptr, this`hasIndex, this`ipos, this`opos, this`configs, this`cur, this`rest,
               this`indexedRoot, flagList
      ensures At(Arrive) && stack == [] && cur == Root(k) && configs == []
      ensures rest == if speed.indexed || !old(hasIndex) then Arcs(k, cur) else []
      ensures indexedRoot == if speed.indexed then Indexed(k, 0) else old(hasIndex)
    {
      hide NoSilentCycle, Walk, Row, Arcs, TaskOK, ConfigOK, SpeedOK, Spelled, Stands, PrintedOK, LinesOf, FlagNames,
           MarksOK, OnPath, Cursor;
      AtRoot(k, marks[..]);
      Rewind();
      flagList.ClearFlags();
      assert flagList.list == ClearedList(FlagNames(k.flags));
      AtStart();
    }

    method Rewind()
      requires Fits() && ConfigOK(k, Root(k)) && 0 < |k.first| && k.first[0] == 0
      modifies this`ptr, this`iptr, this`hasIndex, this`ipos, this`opos, this`configs, this`cur, this`rest,
               this`indexedRoot
      ensures ptr == ipos == opos == 0 && configs == [] && cur == Root(k) && Cursor() && LinesOf(k, 0, rest)
      ensures rest == if speed.indexed || !old(hasIndex) then Arcs(k, cur) else []
      ensures indexedRoot == hasIndex == if speed.indexed then Indexed(k, 0) else old(hasIndex)
    {
      hide NoSilentCycle, Walk, Row, Arcs, TaskOK, ConfigOK, SpeedOK, LinesOf, FlagNames;
      ptr, ipos, opos := 0, 0, 0;
      iptr := Nil;
      configs, cur := [], Root(k);
      SetIptr();
      indexedRoot := hasIndex;
    }

    lemma AtStart()
      requires Fits() && stack == [] && configs == [] && cur == Root(k) && flagList.list == cur.flags
      requires ptr == ipos == opos == 0 && Cursor() && LinesOf(k, 0, rest) && indexedRoot == hasIndex
      requires ConfigOK(k, cur) && Spelled(k, [], [], cur) && MarksOK(marks[..], [])
      requires 0 < |k.t| && k.t[0].state == 0 && 0 < |k.first| == k.n && k.first[0] == 0
      ensures At(Arrive)
    {
      hide NoSilentCycle, Walk, Row, Arcs, TaskOK, ConfigOK, SpeedOK, Spelled, LinesOf, FlagNames, MarksOK, Cursor;
    }
  }

  // Another word, or the other direction.
  ghost predicate SameNet(k: Task, k': Task) {
    k' == k.(down := k'.down, lists := k'.lists, word := k'.word, sigs := k'.sigs, beyond := k'.beyond)
  }

  // The direction of k', with the word there was.
  ghost function Towards(k: Task, k': Task): Task {
    k.(down := k'.down, lists := k'.lists)
  }

  // The paths that are found: all, unless there is no index for the direction and
  // the start state had one in the other.
  ghost function Found(k: Task, disturbed: bool): seq<seq<nat>>
    requires TaskOK(k) && NoSilentCycle(k)
  {
    RootOK(k);
    if !disturbed then All(k, Root(k)) else if Final(k, Root(k)) then [[]] else []
  }

  // Only the empty path accepts.
  ghost predicate OnlyAtRoot(k: Task)
    requires TaskOK(k) && NoSilentCycle(k)
  {
    RootOK(k);
    forall path :: AcceptingPath(k, Root(k), path) ==> path == []
  }

  // Then nothing is lost, and otherwise something is.
  lemma DisturbedExactly(k: Task)
    requires TaskOK(k) && NoSilentCycle(k)
    ensures Found(k, true) == Found(k, false) <==> OnlyAtRoot(k)
  {
    hide NoSilentCycle, TaskOK, Final, AcceptingPath, All, NoDup;
    RootOK(k);
    var all := All(k, Root(k));
    AllAccepting(k, Root(k), []);
    FinalFirst(k, Root(k));
    AllDistinct(k, Root(k));
    if OnlyAtRoot(k) {
      forall path | path in all ensures path == [] {
        AllAccepting(k, Root(k), path);
      }
      OnlyEmpty(all);
    }
    if Found(k, true) == all {
      forall path | AcceptingPath(k, Root(k), path) ensures path == [] {
        AllAccepting(k, Root(k), path);
      }
    }
  }

  lemma OnlyEmpty(all: seq<seq<nat>>)
    requires NoDup(all) && forall path :: path in all ==> path == []
    ensures all == if [] in all then [[]] else []
  {
    NoDupSize(all);
    SubsetSize(Elements(all), {[]});
    assert all == [] || all == [all[0]];
  }

  lemma FinalFirst(k: Task, c: Config)
    requires TaskOK(k) && NoSilentCycle(k) && ConfigOK(k, c)
    ensures AcceptingPath(k, c, []) <==> Final(k, c)
  {
  }

  lemma AtRoot(k: Task, marks: seq<int>)
    requires TaskOK(k) && forall q :: 0 <= q < |marks| ==> marks[q] == 0
    ensures ConfigOK(k, Root(k)) && Spelled(k, [], [], Root(k)) && MarksOK(marks, [])
    ensures 0 < |k.t| && k.t[0].state == 0 && 0 < |k.first| == k.n && k.first[0] == 0
  {
    assert FirstLine(k, 0);
  }

  // The preparations do not depend on the word.
  lemma SpeedKept(k: Task, k': Task, v: Speed)
    requires SpeedOK(k, v) && k' == k.(word := k'.word, sigs := k'.sigs, beyond := k'.beyond)
    ensures SpeedOK(k', v)
  {
    hide Walk, Entered;
    forall q | 0 <= q < k.n ensures RowLength(k', q, v.numlines[q]) {
      assert RowLength(k, q, v.numlines[q]);
    }
    forall i | 0 <= i < |k.t| && HasFlag(k', i) ensures 0 <= k.t[i].state < k.n && v.flagstates[k.t[i].state] {
      assert HasFlag(k, i);
    }
    if v.binsearch {
      forall i, j | 0 <= i < j < |k.t| && k.t[i].state == k.t[j].state ensures SymIn(k', i) <= SymIn(k', j) {
        assert SymIn(k, i) <= SymIn(k, j);
      }
    }
    forall s | s in k'.lists
      ensures Slot(s.state, EPSILON) in k'.lists && Walk(v.index, Entered(v.index, s), Chained(k', s)) {
      assert Chained(k', s) == Chained(k, s);
    }
  }

  lemma KeysOf(k: Task, c: Config)
    requires ConfigOK(k, c)
    ensures c.flags.Keys == FlagNames(k.flags)
  {
  }

  lemma PoppedFrame(k: Task, f: Frame, c: Config, next: Config)
    requires TaskOK(k) && FrameOK(k, f, c, next)
    ensures 0 <= c.state < k.n == |k.first| && f.offset < |k.t| && k.t[f.offset].state == c.state
            && k.t[f.offset].inp != -1
    ensures f.ipos == c.ipos && Undo(next.flags, f.flagname, f.flagvalue, f.flagneg) == c.flags
            && f.visitmark == c.ipos + 1
  {
    hide Follow;
  }

  lemma {:induction false} PoppedPending(k: Task, stack: seq<Frame>, configs: seq<Config>)
    requires TaskOK(k) && NoSilentCycle(k) && |stack| == |configs| > 0
    requires forall i :: 0 <= i < |stack| ==> ConfigOK(k, configs[i]) && stack[i].offset < |k.t|
    ensures var m := |stack| - 1;
            Pending(k, stack, configs, m + 1) ==
              Extended(Offsets(stack[..m]), From(k, configs[m], stack[m].rest))
                  + Pending(k, stack[..m], configs[..m], m)
            && PendingWork(k, stack, configs, m + 1) == WorkFrom(k, configs[m], stack[m].rest) + 1
               + PendingWork(k, stack[..m], configs[..m], m)
  {
    hide From, WorkFrom, TaskOK;
    var m := |stack| - 1;
    assert stack[..m][..m] == stack[..m] && configs[..m][..m] == configs[..m];
    PendingFrame(k, stack, configs, stack[..m], configs[..m], m);
    assert Offsets(stack)[..m] == Offsets(stack[..m]);
  }

  lemma PrintPop(k: Task, stack: seq<Frame>, configs: seq<Config>, f: Frame, c: Config, opos: nat, outstring: string)
    requires TaskOK(k) && |stack| == |configs| && opos <= |outstring|
    requires Placed(k, stack + [f])
    requires Placed(k, stack)
    requires PrintedOK(k, stack + [f], configs + [c], opos, outstring)
    ensures f.opos <= opos && PrintedOK(k, stack, configs, f.opos, outstring)
  {
    hide TaskOK, Text, Printed;
    var m, stack', configs' := |stack|, stack + [f], configs + [c];
    assert stack'[m] == f;
    forall i | 0 <= i <= m ensures Printed(k, stack', configs', i) == Printed(k, stack, configs, i) {
      assert stack[..i] == stack'[..i] && configs[..i] == configs'[..i];
      PrintedFrame(k, stack, configs, stack', configs', i);
    }
    PrintedPrefix(k, stack', configs', m);
    BufferPrefix(outstring, opos, Printed(k, stack, configs, m), Printed(k, stack', configs', m + 1));
    forall i | 0 <= i < m ensures stack[i].opos == |Printed(k, stack, configs, i)| {
      assert stack'[i] == stack[i];
    }
  }

  lemma PoppedPrint(k: Task, stack: seq<Frame>, configs: seq<Config>, opos: nat, outstring: string)
    requires TaskOK(k) && |stack| == |configs| > 0 && opos <= |outstring|
    requires Placed(k, stack)
    requires PrintedOK(k, stack, configs, opos, outstring)
    ensures Placed(k, stack[..|stack| - 1]) && stack[|stack| - 1].opos <= opos
    ensures PrintedOK(k, stack[..|stack| - 1], configs[..|stack| - 1], stack[|stack| - 1].opos, outstring)
  {
    hide TaskOK, PrintedOK;
    var m := |stack| - 1;
    assert stack == stack[..m] + [stack[m]] && configs == configs[..m] + [configs[m]];
    PrintPop(k, stack[..m], configs[..m], stack[m], configs[m], opos, outstring);
  }

  // The search can go on where frame f was pushed, with configuration c.
  ghost predicate Resumes(k: Task, x: IndexTable, stack: seq<Frame>, configs: seq<Config>, f: Frame, c: Config,
                          marks: seq<int>, flags: map<string, Entry>, outstring: string)
  {
    && TaskOK(k) && Spelled(k, stack, configs, c) && Stands(k, x, stack, configs) && |stack| == |configs|
    && f.offset < |k.t| && k.t[f.offset].inp != -1 && k.t[f.offset].state == c.state
    && 0 <= c.state < k.n == |k.first| && c.state < |marks|
    && f.ipos == c.ipos && f.visitmark == c.ipos + 1 && Undo(flags, f.flagname, f.flagvalue, f.flagneg) == c.flags
    && Placed(k, stack) && f.opos <= |outstring| && PrintedOK(k, stack, configs, f.opos, outstring)
    && LinesOf(k, c.state, [f.offset] + f.rest) && MarksOK(marks[c.state := c.ipos + 1], configs + [c])
    && (if f.hasIndex then Walk(x, f.iptr, [f.offset] + f.rest)
        else f.iptr.Nil? && InRow(k, c.state, f.offset)
             && [f.offset] + f.rest == Row(k, c.state, f.offset))
  }

  lemma PrintedPrefix(k: Task, stack: seq<Frame>, configs: seq<Config>, m: nat)
    requires TaskOK(k) && m < |stack| == |configs| && Placed(k, stack)
    ensures Printed(k, stack, configs, m) <= Printed(k, stack, configs, m + 1)
  {
  }

  lemma BufferPrefix(buffer: string, opos: nat, before: string, after: string)
    requires opos <= |buffer| && buffer[..opos] == after && before <= after
    ensures |before| <= opos && buffer[..|before|] == before
  {
    assert buffer[..|before|] == buffer[..opos][..|before|];
  }

  // memcpy to a place in the output buffer.
  function Overwrite(buffer: string, at: nat, text: string): (r: string)
    requires at <= |buffer|
    ensures at + |text| <= |r| && r[..at] == buffer[..at] && r[..at + |text|] == buffer[..at] + text
  {
    buffer[..at] + text + (if at + |text| < |buffer| then buffer[at + |text|..] else [])
  }

  // ---- Looking up a word ----

  // What apply_init and, for the chosen states, apply_index prepare for a direction.
  method Prepare(k: Task, sorted: bool, chosen: Option<set<nat>>) returns (v: Speed, ghost k': Task)
    requires TaskOK(k) && NoSilentCycle(k) && (sorted ==> SortedArcs(k)) && k.lists == map[]
    ensures k' == k.(lists := k'.lists) && TaskOK(k') && NoSilentCycle(k') && SpeedOK(k', v)
    ensures v.binsearch == sorted && v.indexed == chosen.Some?
    ensures forall s :: s in k'.lists <==> chosen.Some? && s.state in chosen.value && s.sym < k.size
  {
    hide TaskOK, NoSilentCycle, RowLength, SortedArcs, HasFlag, Index.Valid, Index.Lines, FiledBelow, IndexOK, ListsOK,
         Index.Complete;
    var numlines := LinesOfStates(k);
    var flagstates := MarkFlagStates(k);
    TaskLines(k);
    if chosen.None? {
      k', v := k, Speed(sorted, numlines, flagstates, false, IndexTable(map[], []));
      NothingIndexed(k, v.index);
    } else {
      var x := BuildIndex(k, chosen.value);
      k' := k.(lists := x.All());
      IndexedTask(k, k', x, chosen.value);
      v := Speed(sorted, numlines, flagstates, true, IndexTable(x.heads, x.cells));
    }
    IndexedSpeed(k, k', v);
  }

  lemma NothingIndexed(k: Task, x: IndexTable)
    requires k.lists == map[] && x == IndexTable(map[], [])
    ensures IndexOK(k, x)
  {
  }

  // The index has lists of exactly the lines it should.
  lemma IndexedTask(k: Task, k': Task, x: Index, chosen: set<nat>)
    requires TaskOK(k) && NoSilentCycle(k) && x.Valid() && x.Complete(k, |k.t|) && k' == k.(lists := x.All())
    requires forall s :: s in x.heads <==> s.state in chosen && s.sym < k.size
    ensures TaskOK(k') && NoSilentCycle(k') && IndexOK(k', x.Table())
  {
    hide NoSilentCycle, Index.Lines, FiledBelow, Index.Valid, Walk, Entered, TaskOK;
    forall s | s in k'.lists ensures FiledBelow(k', |k'.t|, s, k'.lists[s]) {
      SameFiled(k, k', s, x.Lines(s));
    }
    hide Index.Complete;
    SameTask(k, k');
    SameCycles(k, k');
    forall s | s in k'.lists
      ensures Slot(s.state, EPSILON) in k'.lists && Walk(x.Table(), Entered(x.Table(), s), Chained(k', s)) {
      x.Walks(s);
    }
  }

  lemma SameFiled(k: Task, k': Task, s: Slot, lines: seq<nat>)
    requires FiledBelow(k, |k.t|, s, lines) && k' == k.(lists := k'.lists)
    ensures FiledBelow(k', |k'.t|, s, lines)
  {
    hide NoDup;
    forall j | 0 <= j < |k.t| ensures Filed(k', j, s) <==> Filed(k, j, s) {
      assert Key(k', j) == Key(k, j);
    }
  }

  lemma SameTask(k: Task, k': Task)
    requires TaskOK(k) && k' == k.(lists := k'.lists) && ListsOK(k')
    ensures TaskOK(k')
  {
    hide ListsOK;
    forall q | 0 <= q < k.n ensures FirstLine(k', q) {
      assert FirstLine(k, q);
    }
    forall i | 0 <= i < |k.t| ensures SymIn(k', i) == SymIn(k, i) && SymOut(k', i) == SymOut(k, i) {
    }
  }

  lemma SameCycles(k: Task, k': Task)
    requires k' == k.(lists := k'.lists) && NoSilentCycle(k)
    ensures NoSilentCycle(k')
  {
    forall q ensures !Leads(k', q, q) {
      assert !Leads(k, q, q);
      if path :| SilentPath(k', q, path, q) {
        SameSilence(k, k', q, path, q);
      }
    }
  }

  lemma {:induction false} SameSilence(k: Task, k': Task, p: int, path: seq<nat>, q: int)
    requires k' == k.(lists := k'.lists) && SilentPath(k', p, path, q)
    ensures SilentPath(k, p, path, q)
    decreases path
  {
    assert Silent(k, path[0]);
    if |path| > 1 {
      SameSilence(k, k', k.t[path[0]].target, path[1..], q);
    }
  }

  lemma IndexedSpeed(k: Task, k': Task, v: Speed)
    requires k' == k.(lists := k'.lists) && |k.first| == k.n == |v.numlines| == |v.flagstates| && IndexOK(k', v.index)
    requires forall q :: 0 <= q < k.n ==> RowLength(k, q, v.numlines[q])
    requires forall i :: 0 <= i < |k.t| && HasFlag(k, i) ==> 0 <= k.t[i].state < k.n && v.flagstates[k.t[i].state]
    requires (v.binsearch ==> SortedArcs(k)) && (!v.indexed ==> v.index == IndexTable(map[], []))
    ensures SpeedOK(k', v)
  {
    hide IndexOK;
    forall q | 0 <= q < k.n ensures RowLength(k', q, v.numlines[q]) {
      assert RowLength(k, q, v.numlines[q]);
    }
    forall i | 0 <= i < |k.t| && HasFlag(k', i) ensures 0 <= k.t[i].state < k.n && v.flagstates[k.t[i].state] {
      assert HasFlag(k, i);
    }
    if v.binsearch {
      forall i, j | 0 <= i < j < |k.t| && k.t[i].state == k.t[j].state ensures SymIn(k', i) <= SymIn(k', j) {
        assert SymIn(k, i) <= SymIn(k, j);
      }
    }
  }

  ghost function Outputs(k: Task, paths: seq<seq<nat>>): seq<string>
    requires TaskOK(k)
  {
    RootOK(k);
    seq(|paths|, i requires 0 <= i < |paths| => Output(k, Root(k), paths[i]))
  }

  // apply_down(word), apply_down(NULL), ... until there is no result.
  method AllResults(h: ApplyHandle, k': Task, v: Speed) returns (results: seq<string>)
    requires h.At(Pop) && TaskOK(k') && NoSilentCycle(k') && SameNet(h.k, k') && SpeedOK(Towards(h.k, k'), v)
    modifies h, h.marks, h.flagList
    ensures h.At(Pop) && h.k == k' && h.speed == v
    ensures h.indexedRoot == if v.indexed then Indexed(k', 0) else old(h.indexedRoot)
    ensures var paths := Found(h.k, !v.indexed && old(h.indexedRoot));
            results == Outputs(h.k, paths)
  {
    hide TaskOK, NoSilentCycle, Found, Output, SpeedOK, ApplyHandle.OnPath, ApplyHandle.Owes, ApplyHandle.At;
    results := [];
    var result := h.Start(k', v);
    RootOK(h.k);
    ghost var paths := Found(h.k, !v.indexed && old(h.indexedRoot));
    ghost var done := 0;
    while result.Some?
      invariant h.k == k' && h.speed == v && |results| == done <= |paths|
      invariant h.indexedRoot == if v.indexed then Indexed(k', 0) else old(h.indexedRoot)
      invariant forall i :: 0 <= i < done ==> results[i] == Output(h.k, Root(h.k), paths[i])
      invariant if done == |paths| then result.None? && h.At(Pop)
                else result == Some(Output(h.k, Root(h.k), paths[done])) && h.Owes(paths[done + 1..])
      decreases |paths| - done
    {
      results := results + [result.value];
      result := h.Resume(paths[done + 1..]);
      done := done + 1;
    }
  }

  // A word in one direction, and then one in the other with the same handle: all
  // is found at first, and then too, unless the start state has an index in the
  // first direction and there is none for the second.
  method BothWays(k: Task, v: Speed, k': Task, v': Speed) returns (results: seq<string>, others: seq<string>)
    requires TaskOK(k) && NoSilentCycle(k) && SpeedOK(k, v)
    requires TaskOK(k') && NoSilentCycle(k') && SameNet(k, k') && SpeedOK(Towards(k, k'), v')
    ensures results == Outputs(k, All(k, Root(k)))
    ensures others == Outputs(k', Found(k', !v'.indexed && v.indexed && Indexed(k, 0)))
  {
    hide TaskOK, NoSilentCycle, Found, Output, SpeedOK, ApplyHandle.At, All;
    FoundAll(k);
    var h := new ApplyHandle(k, v);
    results := AllResults(h, k, v);
    others := AllResults(h, k', v');
  }

  lemma FoundAll(k: Task)
    requires TaskOK(k) && NoSilentCycle(k)
    ensures Found(k, false) == All(k, Root(k))
  {
  }

  lemma RootOK(k: Task)
    requires TaskOK(k)
    ensures ConfigOK(k, Root(k))
  {
  }

  // The paths behind the results: all accepting ones, each once.
  lemma ResultsExact(k: Task)
    requires TaskOK(k) && NoSilentCycle(k)
    ensures ConfigOK(k, Root(k)) && NoDup(All(k, Root(k)))
    ensures forall path :: path in All(k, Root(k)) <==> AcceptingPath(k, Root(k), path)
  {
    AllDistinct(k, Root(k));
    forall path ensures path in All(k, Root(k)) <==> AcceptingPath(k, Root(k), path) {
      AllAccepting(k, Root(k), path);
    }
  }
}
