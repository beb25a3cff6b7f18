// foma_net_print and io_net_read (io.c): a net as text, and back.

module NetFile {
  import opened Nets
  import opened Options
  import opened Alphabets
  import opened Text

  // The header of a net.  isCompleted, sortedIn and sortedOut share one number.
  datatype Props = Props(arity: int, arccount: int, statecount: int, linecount: int, finalcount: int, pathcount: int,
                         isDeterministic: int, isPruned: int, isMinimized: int, isEpsilonFree: int, isLoopFree: int,
                         isCompleted: int, sortedIn: int, sortedOut: int)

  // states ends in the sentinel.
  datatype FomaNet = FomaNet(props: Props, name: string, sigma: seq<Sym>, states: seq<Line>)

  const MAGIC := "##foma-net 1.0##"
  const PROPS := "##props##"
  const SIGMA := "##sigma##"
  const STATES := "##states##"
  const END := "##end##"
  const LAST := "-1 -1 -1 -1 -1"

  // is_completed in bits 0 and 1, arcs_sorted_in in 2 and 3, arcs_sorted_out in 4 and 5.
  function Extras(p: Props): int {
    p.isCompleted + 4 * p.sortedIn + 16 * p.sortedOut
  }

  function Unpacked(p: Props, extras: int): Props {
    p.(isCompleted := extras % 4, sortedIn := extras / 4 % 4, sortedOut := extras / 16 % 4)
  }

  predicate TwoBits(x: int) {
    0 <= x < 4
  }

  lemma ExtrasBack(p: Props)
    requires TwoBits(p.isCompleted) && TwoBits(p.sortedIn) && TwoBits(p.sortedOut)
    ensures Unpacked(p, Extras(p)) == p
  {
  }

  // What the format can hold: lines with a state up to a line without one, and
  // a newline only as the symbol of one character.
  ghost predicate NetOK(net: FomaNet) {
    && TwoBits(net.props.isCompleted) && TwoBits(net.props.sortedIn) && TwoBits(net.props.sortedOut)
    && Without(net.name, '\n') && Ended(net.states)
    && (forall i :: 0 <= i < |net.sigma| ==> SymbolOK(net.sigma[i]))
  }

  ghost predicate Ended(t: seq<Line>) {
    t != [] && t[|t| - 1].state == -1 && forall i :: 0 <= i < |t| - 1 ==> t[i].state != -1
  }

  ghost predicate SymbolOK(s: Sym) {
    s.symbol == "\n" || Without(s.symbol, '\n')
  }

  // The name that comes back: its first word, or without a word the header.
  function NameBack(net: FomaNet): string {
    if Words(net.name) == [] then Joined(PropsFields(net)) else Words(net.name)[0]
  }

  // An empty symbol comes back as a newline.
  function SymbolsBack(sigma: seq<Sym>): seq<Sym> {
    seq(|sigma|, i requires 0 <= i < |sigma| => sigma[i].(symbol := if sigma[i].symbol == "" then "\n"
                                                                    else sigma[i].symbol))
  }

  // The final flag of the first of the consecutive lines of the state.
  function FinalBack(t: seq<Line>, i: nat): bool
    requires i < |t|
  {
    if i > 0 && t[i - 1].state == t[i].state then FinalBack(t, i - 1) else t[i].final
  }

  // Only state 0 comes back as a start state, and states that are no states.
  predicate Starting(state: int) {
    state == 0 || state < -1
  }

  function LinesBack(t: seq<Line>): (r: seq<Line>)
    ensures |r| == |t|
  {
    seq(|t|, i requires 0 <= i < |t| =>
      if i + 1 == |t| then SENTINEL else t[i].(final := FinalBack(t, i), start := Starting(t[i].state)))
  }

  function AsRead(net: FomaNet): FomaNet {
    net.(name := NameBack(net), sigma := SymbolsBack(net.sigma), states := LinesBack(net.states))
  }

  // The nets that come back as they are: the name is one word, no symbol is
  // empty, the start flag is on the lines of state 0, and the final flag is the
  // same on consecutive lines of a state.
  ghost predicate ComesBack(net: FomaNet) {
    && OneWord(net.name) && (forall i :: 0 <= i < |net.sigma| ==> net.sigma[i].symbol != "")
    && net.states != [] && net.states[|net.states| - 1] == SENTINEL
    && (forall i :: 0 <= i < |net.states| - 1 ==> EntryOK(net.states, i))
  }

  ghost predicate EntryOK(t: seq<Line>, i: nat)
    requires i < |t|
  {
    (t[i].start <==> Starting(t[i].state)) && (i > 0 && t[i - 1].state == t[i].state ==> t[i - 1].final == t[i].final)
  }

  // ---- Writing ----

  function PropsFields(net: FomaNet): seq<string> {
    var p := net.props;
    [Itoa(p.arity), Itoa(p.arccount), Itoa(p.statecount), Itoa(p.linecount), Itoa(p.finalcount), Itoa(p.pathcount),
     Itoa(p.isDeterministic), Itoa(p.isPruned), Itoa(p.isMinimized), Itoa(p.isEpsilonFree), Itoa(p.isLoopFree),
         Itoa(Extras(p)), net.name]
  }

  function SigmaText(sigma: seq<Sym>): string {
    if sigma == [] then "" else Itoa(sigma[0].number) + " " + sigma[0].symbol + "\n" + SigmaText(sigma[1..])
  }

  function Bit(b: bool): int {
    if b then 1 else 0
  }

  // Five, four, three or two numbers: the state and the final flag only where
  // the state is new, the output only where it differs.
  function Values(l: Line, laststate: int): (r: seq<int>)
    ensures r != []
  {
    if l.state != laststate then
      if l.inp != l.outp then [l.state, l.inp, l.outp, l.target, Bit(l.final)]
                              else [l.state, l.inp, l.target, Bit(l.final)]
    else if l.inp != l.outp then [l.inp, l.outp, l.target] else [l.inp, l.target]
  }

  function LastState(t: seq<Line>, i: nat): int
    requires i <= |t|
  {
    if i == 0 then -1 else t[i - 1].state
  }

  // The lines of entries i.. up to the sentinel.
  function StateLines(t: seq<Line>, i: nat): seq<string>
    requires i <= |t|
    decreases |t| - i
  {
    if i + 1 >= |t| then [] else [Row(Values(t[i], LastState(t, i)))] + StateLines(t, i + 1)
  }

  function Printed(net: FomaNet): string {
    Lines([MAGIC, PROPS, Joined(PropsFields(net)), SIGMA]) + SigmaText(net.sigma)
        + Lines([STATES] + StateLines(net.states, 0) + [LAST, END])
  }

  method FomaNetPrint(net: FomaNet) returns (out: string)
    requires Ended(net.states)
    ensures out == Printed(net)
  {
    hide Row, Itoa, Lines, Joined, Values;
    out := Lines([MAGIC]) + Lines([PROPS]) + Lines([Joined(PropsFields(net))]) + Lines([SIGMA]);
    FourLines(MAGIC, PROPS, Joined(PropsFields(net)), SIGMA);
    ghost var head := out;
    assert net.sigma[0..] == net.sigma;
    for i := 0 to |net.sigma|
      invariant out + SigmaText(net.sigma[i..]) == head + SigmaText(net.sigma)
    {
      var s := net.sigma[i];
      SigmaNext(net.sigma, i);
      assert out + (Itoa(s.number) + " " + s.symbol + "\n" + SigmaText(net.sigma[i + 1..])) ==
             out + Itoa(s.number) + " " + s.symbol + "\n" + SigmaText(net.sigma[i + 1..]);
      out := out + Itoa(s.number) + " " + s.symbol + "\n";
    }
    assert net.sigma[|net.sigma|..] == [];
    head := out;
    out := out + Lines([STATES]);
    var fsm, laststate := 0, -1;
    ghost var before := [STATES];
    while net.states[fsm].state != -1
      invariant fsm < |net.states| && laststate == LastState(net.states, fsm)
      invariant out == head + Lines(before) && before + StateLines(net.states, fsm) == [STATES]
                + StateLines(net.states, 0)
      decreases |net.states| - fsm
    {
      var row := Row(Values(net.states[fsm], laststate));
      LinesConcat(before, [row]);
      StatesNext(net.states, fsm);
      assert before + ([row] + StateLines(net.states, fsm + 1)) == before + [row] + StateLines(net.states, fsm + 1);
      out := out + Lines([row]);
      before := before + [row];
      laststate := net.states[fsm].state;
      fsm := fsm + 1;
    }
    assert StateLines(net.states, fsm) == [];
    assert before == [STATES] + StateLines(net.states, 0);
    out := out + Lines([LAST]) + Lines([END]);
    LinesConcat(before, [LAST, END]);
    LinesConcat([LAST], [END]);
    assert [LAST] + [END] == [LAST, END];
  }

  lemma FourLines(a: string, b: string, c: string, d: string)
    ensures Lines([a]) + Lines([b]) + Lines([c]) + Lines([d]) == Lines([a, b, c, d])
  {
    LinesConcat([a], [b]);
    LinesConcat([a] + [b], [c]);
    LinesConcat([a] + [b] + [c], [d]);
    assert [a] + [b] + [c] + [d] == [a, b, c, d];
  }

  lemma SigmaNext(sigma: seq<Sym>, i: nat)
    requires i < |sigma|
    ensures SigmaText(sigma[i..]) == Itoa(sigma[i].number) + " " + sigma[i].symbol + "\n" + SigmaText(sigma[i + 1..])
  {
    assert sigma[i..][1..] == sigma[i + 1..];
  }

  lemma StatesNext(t: seq<Line>, i: nat)
    requires i + 1 < |t|
    ensures StateLines(t, i) == [Row(Values(t[i], LastState(t, i)))] + StateLines(t, i + 1)
  {
  }

  // ---- The text as lines ----

  // The newline symbol takes two lines.
  function SymbolLines(s: Sym): seq<string> {
    if s.symbol == "\n" then [Itoa(s.number) + " ", ""] else [Itoa(s.number) + " " + s.symbol]
  }

  function SigmaLines(sigma: seq<Sym>): seq<string> {
    if sigma == [] then [] else SymbolLines(sigma[0]) + SigmaLines(sigma[1..])
  }

  lemma {:induction false} SigmaTextLines(sigma: seq<Sym>)
    ensures SigmaText(sigma) == Lines(SigmaLines(sigma))
    decreases sigma
  {
    hide Itoa;
    if sigma != [] {
      var s := sigma[0];
      SigmaTextLines(sigma[1..]);
      LinesConcat(SymbolLines(s), SigmaLines(sigma[1..]));
      SymbolText(s);
    }
  }

  lemma SymbolText(s: Sym)
    ensures Lines(SymbolLines(s)) == Itoa(s.number) + " " + s.symbol + "\n"
  {
    hide Itoa;
    var a := Itoa(s.number) + " ";
    if s.symbol == "\n" {
      assert [a, ""][1..] == [""] && [""][1..] == [];
      assert Lines([a, ""]) == a + "\n" + Lines([""]);
      assert Lines([""]) == "\n";
    } else {
      assert [a + s.symbol][1..] == [];
      assert Lines([a + s.symbol]) == a + s.symbol + "\n";
    }
  }

  ghost function States(net: FomaNet): seq<string> {
    [STATES] + StateLines(net.states, 0) + [LAST, END]
  }

  ghost function PrintedLines(net: FomaNet): seq<string> {
    [MAGIC, PROPS, Joined(PropsFields(net)), SIGMA] + SigmaLines(net.sigma) + States(net)
  }

  lemma PrintedAre(net: FomaNet)
    ensures Printed(net) == Lines(PrintedLines(net))
  {
    hide Lines, Joined;
    SigmaTextLines(net.sigma);
    LinesConcat([MAGIC, PROPS, Joined(PropsFields(net)), SIGMA], SigmaLines(net.sigma));
    LinesConcat([MAGIC, PROPS, Joined(PropsFields(net)), SIGMA] + SigmaLines(net.sigma), States(net));
  }

  // ---- Reading ----

  class IoBuf {
    const buf: string
    var ptr: nat

    constructor (buf: string)
      ensures Valid() && Rest() == buf
    {
      this.buf := buf;
      ptr := 0;
    }

    ghost predicate Valid()
      reads this
    {
      ptr <= |buf|
    }

    // What has not been read.
    ghost function Rest(): string
      requires Valid()
      reads this
    {
      buf[ptr..]
    }

    ghost predicate Ahead(todo: seq<string>, more: string)
      requires Valid()
      reads this
    {
      Rest() == Lines(todo) + more && AllPlain(todo)
    }

    lemma SomethingAhead(todo: seq<string>, more: string)
      requires Valid()
      ensures Ahead(todo, more) && todo != [] ==> ptr < |buf|
    {
    }

    lemma LinesAhead(todo: seq<string>, more: string)
      requires Valid() && Rest() == Lines(todo) + more && AllPlain(todo)
      ensures Ahead(todo, more)
    {
    }

    lemma NothingAhead(more: string)
      requires Valid()
      ensures Ahead([], more) ==> Rest() == more
    {
      assert "" + more == more;
    }

    // io_gets: the next line, or what is left.
    method Gets(ghost todo: seq<string>, ghost more: string) returns (line: string)
      requires Valid()
      modifies this
      ensures Valid() && line == old(Rest())[..IndexOf(old(Rest()), '\n')]
      ensures ptr > old(ptr) || (line == "" && old(ptr) == ptr == |buf|)
      ensures old(Ahead(todo, more)) && todo != [] ==> line == todo[0] && Ahead(todo[1..], more)
    {
      hide Lines, IndexOf, Without, AllPlain;
      line := "";
      var i := ptr;
      while i < |buf| && buf[i] != '\n'
        invariant ptr <= i <= |buf| && line == buf[ptr..i] && forall k :: ptr <= k < i ==> buf[k] != '\n'
        decreases |buf| - i
      {
        line := line + [buf[i]];
        i := i + 1;
      }
      LineEnds(buf, ptr, i);
      NextLine(Rest(), todo, more, i - ptr);
      ptr := if i == |buf| then i else i + 1;
    }
  }

  ghost predicate AllPlain(todo: seq<string>) {
    forall i :: 0 <= i < |todo| ==> Without(todo[i], '\n')
  }

  lemma LineEnds(buf: string, ptr: nat, i: nat)
    requires ptr <= i <= |buf| && (forall k :: ptr <= k < i ==> buf[k] != '\n') && (i < |buf| ==> buf[i] == '\n')
    ensures IndexOf(buf[ptr..], '\n') == i - ptr && buf[ptr..][..i - ptr] == buf[ptr..i]
    ensures if i < |buf| then buf[ptr..][i - ptr + 1..] == buf[i + 1..] else i - ptr == |buf[ptr..]|
  {
    if i < |buf| {
      assert buf[ptr..] == buf[ptr..i] + ['\n'] + buf[i + 1..];
      IndexIs(buf[ptr..i], '\n', buf[i + 1..]);
    } else {
      assert buf[ptr..] == buf[ptr..i];
      IndexIs(buf[ptr..i], '\n', "");
    }
  }

  lemma NextLine(rest: string, todo: seq<string>, more: string, k: nat)
    requires k == IndexOf(rest, '\n') && k <= |rest|
    ensures rest == Lines(todo) + more && AllPlain(todo) && todo != [] ==>
              k < |rest| && rest[..k] == todo[0] && rest[k + 1..] == Lines(todo[1..]) + more && AllPlain(todo[1..])
  {
    if rest == Lines(todo) + more && AllPlain(todo) && todo != [] {
      var first, after := todo[0], Lines(todo[1..]) + more;
      Regrouped(first, Lines(todo[1..]), more);
      assert rest == first + ['\n'] + after;
      hide Lines;
      IndexIs(first, '\n', after);
      Parted(first, after);
      assert AllPlain(todo[1..]);
    }
  }

  lemma Regrouped(a: string, b: string, c: string)
    ensures a + "\n" + b + c == a + ['\n'] + (b + c)
  {
  }

  lemma Parted(a: string, b: string)
    ensures var s := a + ['\n'] + b; |a| < |s| && s[..|a|] == a && s[|a| + 1..] == b
  {
  }

  lemma PlainLines(net: FomaNet)
    requires NetOK(net)
    ensures AllPlain(PrintedLines(net))
  {
    hide Itoa, Joined, NetOK, Row, Fields, Words;
    PropsPlain(net);
    SigmaPlain(net, 0);
    assert net.sigma[0..] == net.sigma;
    StatesPlain(net.states, 0);
  }

  function NumberFields(p: Props): seq<string> {
    [Itoa(p.arity), Itoa(p.arccount), Itoa(p.statecount), Itoa(p.linecount), Itoa(p.finalcount), Itoa(p.pathcount),
     Itoa(p.isDeterministic), Itoa(p.isPruned), Itoa(p.isMinimized), Itoa(p.isEpsilonFree), Itoa(p.isLoopFree),
         Itoa(Extras(p))]
  }

  lemma PropsPlain(net: FomaNet)
    requires NetOK(net)
    ensures Without(Joined(PropsFields(net)), '\n')
    ensures Words(Joined(PropsFields(net))) == NumberFields(net.props) + Words(net.name)
  {
    var f := PropsFields(net);
    hide Itoa, Words;
    assert f == NumberFields(net.props) + [net.name];
    forall n ensures OneWord(Itoa(n)) {
      NumberWord(n);
    }
    JoinedWithout(f, '\n');
    WordsJoined(NumberFields(net.props), net.name);
  }

  // Only a name of one word comes back, and the header is longer than the name.
  lemma NameKept(net: FomaNet)
    ensures NameBack(net) == net.name <==> OneWord(net.name)
  {
    hide Itoa, Words;
    OnlyWord(net.name);
    forall n ensures OneWord(Itoa(n)) {
      NumberWord(n);
    }
    assert PropsFields(net) == NumberFields(net.props) + [net.name];
    JoinedLonger(NumberFields(net.props), net.name);
  }

  lemma NumberWord(n: int)
    ensures OneWord(Itoa(n))
  {
  }

  lemma {:induction false} JoinedLonger(f: seq<string>, more: string)
    ensures |Joined(f + [more])| >= |more| + |f|
    decreases f
  {
    if f == [] {
      assert f + [more] == [more];
    } else {
      assert (f + [more])[1..] == f[1..] + [more];
      JoinedLonger(f[1..], more);
    }
  }

  lemma {:induction false} SigmaPlain(net: FomaNet, i: nat)
    requires NetOK(net) && i <= |net.sigma|
    ensures forall k :: 0 <= k < |SigmaLines(net.sigma[i..])| ==> Without(SigmaLines(net.sigma[i..])[k], '\n')
    decreases |net.sigma| - i
  {
    hide Itoa;
    if i < |net.sigma| {
      SigmaPlain(net, i + 1);
      assert net.sigma[i..][1..] == net.sigma[i + 1..];
      assert SymbolOK(net.sigma[i]);
    }
  }

  lemma {:induction false} StatesPlain(t: seq<Line>, i: nat)
    requires i <= |t|
    ensures forall k :: 0 <= k < |StateLines(t, i)| ==> Without(StateLines(t, i)[k], '\n')
    decreases |t| - i
  {
    if i + 1 < |t| {
      StatesPlain(t, i + 1);
      RowPlain(Values(t[i], LastState(t, i)));
    }
  }

  // The header up to the alphabet.
  method ReadProps(iobh: IoBuf, ghost net: FomaNet, ghost more: string) returns (r: Option<(Props, string)>)
    requires iobh.Valid()
    modifies iobh
    ensures iobh.Valid()
    ensures NetOK(net) && old(iobh.Ahead(PrintedLines(net), more)) ==>
              r == Some((net.props, NameBack(net))) && iobh.Ahead(SigmaLines(net.sigma) + States(net), more)
  {
    hide Itoa, Atoi, Joined, IoBuf.Ahead, States, SigmaLines, Words, PropsRead, NameBack, NumberFields;
    ghost var todo := PrintedLines(net);
    assert todo == [MAGIC, PROPS, Joined(PropsFields(net)), SIGMA] + (SigmaLines(net.sigma) + States(net));
    ghost var tail := SigmaLines(net.sigma) + States(net);
    assert todo[1..] == [PROPS, Joined(PropsFields(net)), SIGMA] + tail;
    assert todo[1..][1..] == [Joined(PropsFields(net)), SIGMA] + tail;
    assert todo[1..][1..][1..] == [SIGMA] + tail;
    assert todo[1..][1..][1..][1..] == tail;
    var buf := iobh.Gets(todo, more);
    if buf != MAGIC {
      return None;
    }
    buf := iobh.Gets(todo[1..], more);
    if buf != PROPS {
      return None;
    }
    buf := iobh.Gets(todo[1..][1..], more);
    var w := Words(buf);
    if |w| < 12 {
      PropsFit(net);
      return None;
    }
    var p := PropsRead(w);
    r := Some((p, if |w| > 12 then w[12] else buf));
    PropsFit(net);
    if buf == Joined(PropsFields(net)) {
      PropsBack(net, w);
    }
    buf := iobh.Gets(todo[1..][1..][1..], more);
    while buf != SIGMA
      invariant iobh.Valid()
      invariant NetOK(net) && old(iobh.Ahead(PrintedLines(net), more)) ==> buf == SIGMA && iobh.Ahead(tail, more)
      decreases |iobh.buf| - iobh.ptr, |buf|
    {
      if buf == "" {
        return None;
      }
      buf := iobh.Gets([], more);
    }
  }

  function PropsRead(w: seq<string>): Props
    requires |w| >= 12
  {
    var p := Props(Atoi(w[0]), Atoi(w[1]), Atoi(w[2]), Atoi(w[3]), Atoi(w[4]), Atoi(w[5]), Atoi(w[6]), Atoi(w[7]),
                   Atoi(w[8]),
                   Atoi(w[9]), Atoi(w[10]), 0, 0, 0);
    Unpacked(p, Atoi(w[11]))
  }

  lemma PropsFit(net: FomaNet)
    ensures NetOK(net) ==> Words(Joined(PropsFields(net))) == NumberFields(net.props) + Words(net.name)
    ensures |NumberFields(net.props)| == 12
  {
    hide Words, Joined;
    if NetOK(net) {
      PropsPlain(net);
    }
  }

  lemma PropsBack(net: FomaNet, w: seq<string>)
    requires |w| >= 12 && (NetOK(net) ==> w == NumberFields(net.props) + Words(net.name))
    ensures NetOK(net) ==> PropsRead(w) == net.props
    ensures NetOK(net) ==> NameBack(net) == if |w| > 12 then w[12] else Joined(PropsFields(net))
  {
    hide Itoa, Atoi, Words, Joined;
    forall n ensures Atoi(Itoa(n)) == n {
      AtoiItoa(n);
    }
    if NetOK(net) {
      ExtrasBack(net.props);
    }
  }

  // A line of the alphabet; nothing after the number stands for a newline.
  function ReadSymbol(buf: string, k: nat): Sym
    requires k < |buf|
  {
    Sym(Atoi(buf[..k]), if buf[k + 1..] == "" then "\n" else buf[k + 1..])
  }

  lemma SymbolBack(s: Sym)
    requires SymbolOK(s)
    ensures var line := SymbolLines(s)[0]; var k := IndexOf(line, ' ');
            line != "" && line[0] != '#' && k < |line|
            && ReadSymbol(line, k) == s.(symbol := if s.symbol == "" then "\n" else s.symbol)
  {
    var a := Itoa(s.number);
    var after := if s.symbol == "\n" then "" else s.symbol;
    var line := SymbolLines(s)[0];
    assert line == a + [' '] + after;
    IndexIs(a, ' ', after);
    assert line[..|a|] == a && line[|a| + 1..] == after;
    AtoiItoa(s.number);
  }

  // What is left of the alphabet: after a newline symbol, an empty line first.
  ghost function SigmaLeft(net: FomaNet, i: nat, blank: bool): seq<string>
    requires i <= |net.sigma|
  {
    (if blank then [""] else []) + SigmaLines(net.sigma[i..]) + States(net)
  }

  lemma SigmaLeftNext(net: FomaNet, i: nat, blank: bool)
    requires i <= |net.sigma|
    ensures SigmaLeft(net, i, blank) != []
    ensures blank ==> SigmaLeft(net, i, blank)[0] == "" && SigmaLeft(net, i, blank)[1..] == SigmaLeft(net, i, false)
    ensures !blank && i == |net.sigma| ==> SigmaLeft(net, i, blank)[0] == STATES
                                           && SigmaLeft(net, i, blank)[1..] == States(net)[1..]
    ensures !blank && i < |net.sigma| ==> SigmaLeft(net, i, blank)[0] == SymbolLines(net.sigma[i])[0]
                                          && SigmaLeft(net, i, blank)[1..] ==
                                               SigmaLeft(net, i + 1, net.sigma[i].symbol == "\n")
  {
    hide Itoa, StateLines;
    if !blank && i < |net.sigma| {
      assert net.sigma[i..][1..] == net.sigma[i + 1..];
      assert SigmaLines(net.sigma[i..]) == SymbolLines(net.sigma[i]) + SigmaLines(net.sigma[i + 1..]);
    }
    if !blank && i == |net.sigma| {
      assert SigmaLines(net.sigma[i..]) == [];
      assert SigmaLeft(net, i, blank) == States(net);
    }
  }

  // "##sigma##" up to the next line that begins with #.
  method ReadSigma(iobh: IoBuf, ghost net: FomaNet, ghost more: string) returns (r: Option<(seq<Sym>, string)>)
    requires iobh.Valid()
    modifies iobh
    ensures iobh.Valid()
    ensures NetOK(net) && old(iobh.Ahead(SigmaLines(net.sigma) + States(net), more)) ==>
              r == Some((SymbolsBack(net.sigma), STATES)) && iobh.Ahead(States(net)[1..], more)
  {
    hide Itoa, Atoi, IoBuf.Ahead, States, SigmaLines, SigmaLeft, ReadSymbol, SymbolLines;
    ghost var good := NetOK(net) && iobh.Ahead(SigmaLines(net.sigma) + States(net), more);
    ghost var i, blank := 0, false;
    var sigma := [];
    SigmaLeftStart(net);
    var buf := "";
    while true
      invariant iobh.Valid() && i <= |net.sigma|
      invariant good ==> NetOK(net) && sigma == SymbolsBack(net.sigma)[..i]
                         && iobh.Ahead(SigmaLeft(net, i, blank), more)
      decreases |iobh.buf| - iobh.ptr
    {
      SigmaLeftNext(net, i, blank);
      var atEnd := iobh.ptr == |iobh.buf|;
      iobh.SomethingAhead(SigmaLeft(net, i, blank), more);
      buf := iobh.Gets(SigmaLeft(net, i, blank), more);
      if good && !blank && i < |net.sigma| {
        SymbolBack(net.sigma[i]);
      }
      if buf != "" && buf[0] == '#' {
        assert good ==> i == |net.sigma| && buf == STATES;
        assert SymbolsBack(net.sigma)[..|net.sigma|] == SymbolsBack(net.sigma);
        return Some((sigma, buf));
      }
      if buf == "" {
        if atEnd {
          return None;
        }
        blank := false;
      } else {
        var k := IndexOf(buf, ' ');
        if k == |buf| {
          return None;
        }
        sigma := sigma + [ReadSymbol(buf, k)];
        if i < |net.sigma| {
          assert SymbolsBack(net.sigma)[..i + 1] == SymbolsBack(net.sigma)[..i] + [SymbolsBack(net.sigma)[i]];
          blank := net.sigma[i].symbol == "\n";
          i := i + 1;
        }
      }
    }
  }

  lemma SigmaLeftStart(net: FomaNet)
    ensures SigmaLeft(net, 0, false) == SigmaLines(net.sigma) + States(net)
  {
    assert net.sigma[0..] == net.sigma;
    assert [] + SigmaLines(net.sigma) == SigmaLines(net.sigma);
  }

  // What a line of two to five numbers says, after the last state and its flag.
  function ReadLine(items: seq<int>, laststate: int, lastFinal: int): (r: Option<(Line, int, int)>) {
    if |items| < 2 || |items| > 5 then None
    else
      var state := if |items| < 4 then laststate else items[0];
      var final := if |items| < 4 then lastFinal else items[|items| - 1];
      var start := Starting(state);
      match |items|
      case 2 => Some((Line(state, items[0], items[0], items[1], final == 1, start), state, final))
      case 3 => Some((Line(state, items[0], items[1], items[2], final == 1, start), state, final))
      case 4 => Some((Line(state, items[1], items[1], items[2], final == 1, start), state, final))
      case _ => Some((Line(state, items[1], items[2], items[3], final == 1, start), state, final))
  }

  // A line comes back, if the last state and flag are those of the line before.
  lemma LineBack(t: seq<Line>, i: nat, laststate: int, lastFinal: int)
    requires i + 1 < |t| && Ended(t) && laststate == LastState(t, i)
             && (i > 0 ==> lastFinal == Bit(FinalBack(t, i - 1)))
    ensures ReadLine(Values(t[i], laststate), laststate, lastFinal) ==
              Some((LinesBack(t)[i], t[i].state, Bit(FinalBack(t, i))))
  {
  }

  ghost function StatesLeft(t: seq<Line>, i: nat): seq<string>
    requires i <= |t| && t != []
  {
    if i < |t| then StateLines(t, i) + [LAST, END] else [END]
  }

  lemma StatesLeftNext(t: seq<Line>, i: nat)
    requires i <= |t| && t != []
    ensures StatesLeft(t, i) != []
    ensures i + 1 < |t| ==> StatesLeft(t, i)[0] == Row(Values(t[i], LastState(t, i)))
                            && StatesLeft(t, i)[1..] == StatesLeft(t, i + 1)
    ensures i + 1 == |t| ==> StatesLeft(t, i)[0] == LAST && StatesLeft(t, i)[1..] == StatesLeft(t, i + 1)
    ensures i == |t| ==> StatesLeft(t, i)[0] == END && StatesLeft(t, i)[1..] == []
  {
    hide Row, Values;
  }

  // The sentinel comes back too.
  lemma LastBack(laststate: int, lastFinal: int)
    ensures ReadLine(Numbers(Fields(LAST)), laststate, lastFinal) == Some((SENTINEL, -1, -1))
  {
    hide Row, Fields, Numbers;
    var values := [-1, -1, -1, -1, -1];
    LastIs();
    RowBack(values);
    LastLine(values, laststate, lastFinal);
  }

  lemma LastLine(values: seq<int>, laststate: int, lastFinal: int)
    requires values == [-1, -1, -1, -1, -1]
    ensures ReadLine(values, laststate, lastFinal) == Some((SENTINEL, -1, -1))
  {
  }

  lemma LastIs()
    ensures Row([-1, -1, -1, -1, -1]) == LAST
  {
    assert Decimal(1) == "1" && Itoa(-1) == "-1";
    var values := [-1, -1, -1, -1, -1];
    var f := seq(5, i requires 0 <= i < 5 => Itoa(values[i]));
    hide Itoa;
    assert Joined(["-1"]) == "-1";
    JoinedNext("-1", ["-1"], "-1");
    JoinedNext("-1", ["-1", "-1"], "-1 -1");
    JoinedNext("-1", ["-1", "-1", "-1"], "-1 -1 -1");
    JoinedNext("-1", ["-1", "-1", "-1", "-1"], "-1 -1 -1 -1");
    assert f == ["-1"] + ["-1", "-1", "-1", "-1"];
  }

  lemma JoinedNext(a: string, f: seq<string>, s: string)
    requires f != [] && Joined(f) == s
    ensures Joined([a] + f) == a + " " + s
  {
    assert ([a] + f)[1..] == f;
  }

  // "##states##" up to the next line that begins with #.
  method ReadStates(iobh: IoBuf, ghost net: FomaNet, ghost more: string) returns (r: Option<(seq<Line>, string)>)
    requires iobh.Valid()
    modifies iobh
    ensures iobh.Valid()
    ensures NetOK(net) && old(iobh.Ahead(States(net)[1..], more)) ==> r == Some((LinesBack(net.states), END))
                                                                      && iobh.Ahead([], more)
  {
    hide IoBuf.Ahead, StatesLeft, ReadLine, Row, Values, Fields, Numbers, LastState, Itoa, Atoi, LinesBack;
    ghost var good := NetOK(net) && iobh.Ahead(States(net)[1..], more);
    ghost var t := if good then net.states else [SENTINEL];
    ghost var i := 0;
    if good {
      StatesStart(net);
    }
    NothingRead(t);
    var fsm, laststate, lastFinal := [], -1, 1;
    while true
      invariant iobh.Valid() && i <= |t| && t != [] && (good ==> NetOK(net) && t == net.states)
      invariant good ==> fsm == LinesBack(t)[..i] && iobh.Ahead(StatesLeft(t, i), more)
      invariant good && i < |t| ==> laststate == LastState(t, i) && (i > 0 ==> lastFinal == Bit(FinalBack(t, i - 1)))
      decreases |iobh.buf| - iobh.ptr
    {
      StatesLeftNext(t, i);
      iobh.SomethingAhead(StatesLeft(t, i), more);
      var buf := iobh.Gets(StatesLeft(t, i), more);
      if good {
        EntryBack(net, t, i, laststate, lastFinal);
      }
      if buf != "" && buf[0] == '#' {
        assert LinesBack(t)[..|t|] == LinesBack(t);
        return Some((fsm, buf));
      }
      var items := ExplodeLine(buf);
      var line := ReadLine(items, laststate, lastFinal);
      if line.None? || buf == "" {
        return None;
      }
      fsm, laststate, lastFinal := fsm + [line.value.0], line.value.1, line.value.2;
      if i < |t| {
        assert LinesBack(t)[..i + 1] == LinesBack(t)[..i] + [LinesBack(t)[i]];
        LastStateNext(t, i);
        i := i + 1;
      }
    }
  }

  lemma NothingRead(t: seq<Line>)
    ensures LinesBack(t)[..0] == [] && LastState(t, 0) == -1
  {
  }

  lemma LastStateNext(t: seq<Line>, i: nat)
    requires i < |t|
    ensures LastState(t, i + 1) == t[i].state
  {
  }

  lemma StatesStart(net: FomaNet)
    requires NetOK(net)
    ensures States(net)[1..] == StatesLeft(net.states, 0)
  {
  }

  // What is read next, for a net as it should be.
  lemma EntryBack(net: FomaNet, t: seq<Line>, i: nat, laststate: int, lastFinal: int)
    requires NetOK(net) && t == net.states && i <= |t|
    requires i < |t| ==> laststate == LastState(t, i) && (i > 0 ==> lastFinal == Bit(FinalBack(t, i - 1)))
    ensures i + 1 < |t| ==>
              var row := Row(Values(t[i], LastState(t, i)));
              row != "" && row[0] != '#' && ReadLine(Numbers(Fields(row)), laststate, lastFinal) ==
                    Some((LinesBack(t)[i], t[i].state, Bit(FinalBack(t, i))))
    ensures ReadLine(Numbers(Fields(LAST)), laststate, lastFinal) == Some((SENTINEL, -1, -1))
    ensures i + 1 == |t| ==> LinesBack(t)[i] == SENTINEL
  {
    LastBack(laststate, lastFinal);
    if i + 1 < |t| {
      RowPlain(Values(t[i], laststate));
      RowBack(Values(t[i], laststate));
      LineBack(t, i, laststate, lastFinal);
    }
  }

  // io_net_read.  What it reads of a printed net is that net, and it stops right
  // after it, where the next one may begin.
  method IoNetRead(iobh: IoBuf, ghost net: FomaNet, ghost more: string) returns (r: Option<FomaNet>)
    requires iobh.Valid()
    modifies iobh
    ensures iobh.Valid()
    ensures NetOK(net) && old(iobh.Rest()) == Printed(net) + more ==> r == Some(AsRead(net)) && iobh.Rest() == more
  {
    hide IoBuf.Ahead, IoBuf.Rest, NetOK, States, Printed, PrintedLines, SigmaLines, AllPlain;
    if NetOK(net) && iobh.Rest() == Printed(net) + more {
      PrintedAre(net);
      PlainLines(net);
      iobh.LinesAhead(PrintedLines(net), more);
    }
    var props := ReadProps(iobh, net, more);
    if props.None? {
      return None;
    }
    var sigma := ReadSigma(iobh, net, more);
    if sigma.None? || sigma.value.1 != STATES {
      return None;
    }
    var states := ReadStates(iobh, net, more);
    if states.None? || states.value.1 != END {
      return None;
    }
    r := Some(FomaNet(props.value.0, props.value.1, sigma.value.0, states.value.0));
    iobh.NothingAhead(more);
  }

  // Writing a net and reading it back: it comes back as AsRead says, which is
  // the net itself exactly under the conditions of ComesBack.
  method RoundTrip(net: FomaNet) returns (r: Option<FomaNet>)
    requires NetOK(net)
    ensures r == Some(AsRead(net))
    ensures r == Some(net) <==> ComesBack(net)
  {
    hide Printed;
    var text := FomaNetPrint(net);
    var iobh := new IoBuf(text);
    assert text == Printed(net) + "";
    r := IoNetRead(iobh, net, "");
    NameKept(net);
    SymbolsKept(net.sigma);
    LinesKept(net.states);
  }

  lemma SymbolsKept(sigma: seq<Sym>)
    ensures SymbolsBack(sigma) == sigma <==> forall i :: 0 <= i < |sigma| ==> sigma[i].symbol != ""
  {
    if SymbolsBack(sigma) == sigma {
      forall i | 0 <= i < |sigma| ensures sigma[i].symbol != "" {
        assert SymbolsBack(sigma)[i] == sigma[i];
      }
    }
  }

  lemma LinesKept(t: seq<Line>)
    requires Ended(t)
    ensures LinesBack(t) == t <==> t[|t| - 1] == SENTINEL && forall i :: 0 <= i < |t| - 1 ==> EntryOK(t, i)
  {
    if LinesBack(t) == t {
      assert LinesBack(t)[|t| - 1] == t[|t| - 1];
      forall i | 0 <= i < |t| - 1 ensures EntryOK(t, i) {
        assert LinesBack(t)[i] == t[i];
        if i > 0 {
          assert LinesBack(t)[i - 1] == t[i - 1];
        }
      }
    }
    if t[|t| - 1] == SENTINEL && forall i :: 0 <= i < |t| - 1 ==> EntryOK(t, i) {
      forall i | 0 <= i < |t| ensures LinesBack(t)[i] == t[i] {
        if i < |t| - 1 {
          FinalKept(t, i);
          assert EntryOK(t, i);
        }
      }
    }
  }

  lemma {:induction false} FinalKept(t: seq<Line>, i: nat)
    requires i < |t| - 1 && forall k :: 0 <= k < |t| - 1 ==> EntryOK(t, k)
    ensures FinalBack(t, i) == t[i].final
    decreases i
  {
    assert EntryOK(t, i);
    if i > 0 {
      FinalKept(t, i - 1);
    }
  }
}
