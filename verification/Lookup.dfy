// What looking up a word in a net means (apply.c): the accepting paths whose
// input side spells the word and whose flags are obeyed, in the order of a
// depth-first search over the lines of the table.

module Lookup {
  import opened Nets
  import opened Counting
  import opened Flags
  import opened Options
  import Pointers

  // Which symbol matches at a position of the word, and how far it reaches.
  datatype SigMatch = SigMatch(signumber: int, consumes: nat)

  // The lines of a state that are looked up for a symbol.
  datatype Slot = Slot(state: nat, sym: nat)

  // A net loaded for lookup in one direction, and a word.
  datatype Task = Task(
    t: seq<Line>,                 // lines, without the sentinel
    n: nat,
    first: seq<nat>,              // the first line of every state
    down: bool,                   // apply_down, or apply_up
    flags: map<int, Flag>,        // the flag symbols of the alphabet
    text: map<int, string>,       // what symbols print as
    size: nat,                    // symbol numbers are below this
    ghost lists: map<Slot, seq<nat>>,  // of the indexed states, the lines in the order of the index
    word: string,
    sigs: seq<SigMatch>,
    beyond: nat)                  // the symbol found after the end of the word

  function SymIn(k: Task, i: nat): int
    requires i < |k.t|
  {
    if k.down then k.t[i].inp else k.t[i].outp
  }

  function SymOut(k: Task, i: nat): int
    requires i < |k.t|
  {
    if k.down then k.t[i].outp else k.t[i].inp
  }

  ghost predicate FirstLine(k: Task, q: int)
    requires 0 <= q < |k.first|
  {
    k.first[q] < |k.t| && k.t[k.first[q]].state == q && forall i :: 0 <= i < k.first[q] ==> k.t[i].state != q
  }

  // The list line i is in: flags with EPSILON, ? with @.
  function Key(k: Task, i: nat): int
    requires i < |k.t|
  {
    var sym := SymIn(k, i);
    if sym in k.flags then EPSILON else if sym == UNKNOWN then IDENTITY else sym
  }

  ghost predicate Filed(k: Task, i: nat, s: Slot)
    requires i < |k.t|
  {
    k.t[i].state == s.state && k.t[i].target != -1 && Key(k, i) == s.sym
  }

  // Exactly the lines below i that belong to s, each once.
  ghost predicate FiledBelow(k: Task, i: nat, s: Slot, lines: seq<nat>)
    requires i <= |k.t|
  {
    NoDup(lines) && forall j :: j in lines <==> 0 <= j < i && Filed(k, j, s)
  }

  ghost predicate ListsOK(k: Task) {
    && (forall s :: s in k.lists ==> FiledBelow(k, |k.t|, s, k.lists[s]))
    && (forall s, c :: s in k.lists && 0 <= c < k.size ==> Slot(s.state, c) in k.lists)
  }

  ghost predicate SymbolsBelow(k: Task) {
    && IDENTITY < k.size && k.beyond < k.size && (forall p :: 0 <= p < |k.sigs| ==> k.sigs[p].signumber < k.size)
    && (forall i :: 0 <= i < |k.t| ==> SymIn(k, i) < k.size)
  }

  ghost predicate TaskOK(k: Task) {
    && SymbolsBelow(k) && ListsOK(k)
    && Pointers.IsNet(k.t, k.n) && (forall i :: 0 <= i < |k.t| ==> LineOK(k.t[i], k.n))
    && |k.first| == k.n && k.first[0] == 0 && (forall q :: 0 <= q < k.n ==> k.first[q] < |k.t| && FirstLine(k, q))
    && |k.sigs| == |k.word| && (forall p :: 0 <= p < |k.sigs| ==> 0 < k.sigs[p].consumes <= |k.sigs| - p
                                                                  && k.sigs[p].signumber >= IDENTITY)
    && (forall s :: s in k.flags ==> s > IDENTITY && WellFormed(k.flags[s]))
    // every symbol prints, and @ stands only opposite itself
    && (forall i :: 0 <= i < |k.t| && k.t[i].target != -1 ==> SymOut(k, i) in k.text
                                                              && (SymOut(k, i) == IDENTITY ==> SymIn(k, i) == IDENTITY))
  }

  // Where a search stands: a state, a position of the word, the flags.
  datatype Config = Config(state: int, ipos: nat, flags: map<string, Entry>)

  ghost predicate ConfigOK(k: Task, c: Config) {
    0 <= c.state < k.n && c.ipos <= |k.word| && c.flags.Keys == FlagNames(k.flags)
  }

  function FlagNames(flags: map<int, Flag>): set<string> {
    set x | x in flags :: flags[x].name
  }

  function ClearedList(names: set<string>): map<string, Entry> {
    map a | a in names :: CLEARED
  }

  function Root(k: Task): Config {
    Config(0, 0, ClearedList(FlagNames(k.flags)))
  }

  // How much of the word line i consumes, if it can be followed at all.
  function Eats(k: Task, ipos: nat, i: nat): (r: Option<nat>)
    requires i < |k.t| && |k.sigs| == |k.word|
  {
    var sym := SymIn(k, i);
    if sym == EPSILON || sym in k.flags then Some(0)
    else if ipos >= |k.word| then None
    else if k.sigs[ipos].signumber == sym then Some(k.sigs[ipos].consumes)
    else if (sym == IDENTITY || sym == UNKNOWN) && k.sigs[ipos].signumber == IDENTITY then Some(k.sigs[ipos].consumes)
    else None
  }

  // The flags after line i, if it is obeyed.
  function FlagsAfter(k: Task, c: Config, i: nat): (r: Option<map<string, Entry>>)
    requires i < |k.t| && (forall s :: s in k.flags ==> WellFormed(k.flags[s]) && k.flags[s].name in c.flags)
  {
    var sym := SymIn(k, i);
    if sym !in k.flags then Some(c.flags)
    else
      var f := k.flags[sym];
      var (ok, e) := Check(c.flags[f.name], f, Other(c.flags, f));
      if ok then Some(c.flags[f.name := e]) else None
  }

  // The step over line i.
  ghost function Follow(k: Task, c: Config, i: nat): (r: Option<Config>)
    requires TaskOK(k) && ConfigOK(k, c) && i < |k.t|
    ensures r.Some? ==> ConfigOK(k, r.value) && r.value.ipos >= c.ipos && k.t[i].target == r.value.state
  {
    if k.t[i].target == -1 || Eats(k, c.ipos, i).None? || FlagsAfter(k, c, i).None? then None
    else
      assert LineOK(k.t[i], k.n);
      Some(Config(k.t[i].target, c.ipos + Eats(k, c.ipos, i).value, FlagsAfter(k, c, i).value))
  }

  // What line i prints.
  function Text(k: Task, ipos: nat, i: nat): string
    requires i < |k.t| && SymOut(k, i) in k.text && |k.sigs| == |k.word|
  {
    var sym := SymOut(k, i);
    if sym in k.flags then ""
    else if sym == IDENTITY then
      (if ipos < |k.word| && ipos + k.sigs[ipos].consumes <= |k.word| then k.word[ipos..ipos + k.sigs[ipos].consumes]
                                                                           else "")
    else if sym == EPSILON then ""
    else k.text[sym]
  }

  // ---- Accepting paths ----

  ghost predicate Final(k: Task, c: Config)
    requires TaskOK(k) && ConfigOK(k, c)
  {
    k.t[k.first[c.state]].final && c.ipos == |k.word|
  }

  // A path is a sequence of line numbers.
  ghost predicate AcceptingPath(k: Task, c: Config, path: seq<nat>)
    requires TaskOK(k) && ConfigOK(k, c)
    decreases path
  {
    if path == [] then Final(k, c)
    else
      path[0] < |k.t| && k.t[path[0]].state == c.state && Follow(k, c, path[0]).Some?
      && AcceptingPath(k, Follow(k, c, path[0]).value, path[1..])
  }

  ghost function Output(k: Task, c: Config, path: seq<nat>): string
    requires TaskOK(k) && ConfigOK(k, c)
    decreases path
  {
    if path == [] || path[0] >= |k.t| || Follow(k, c, path[0]).None? then ""
    else Text(k, c.ipos, path[0]) + Output(k, Follow(k, c, path[0]).value, path[1..])
  }

  // ---- No cycles without input ----

  // Line i consumes nothing.
  predicate Silent(k: Task, i: nat)
    requires i < |k.t|
  {
    k.t[i].target != -1 && (SymIn(k, i) == EPSILON || SymIn(k, i) in k.flags)
  }

  // A nonempty path over silent lines.
  ghost predicate SilentPath(k: Task, p: int, path: seq<nat>, q: int)
    decreases path
  {
    && path != [] && path[0] < |k.t| && Silent(k, path[0]) && k.t[path[0]].state == p
    && (if |path| == 1 then k.t[path[0]].target == q else SilentPath(k, k.t[path[0]].target, path[1..], q))
  }

  ghost predicate Leads(k: Task, p: int, q: int) {
    exists path :: SilentPath(k, p, path, q)
  }

  ghost predicate NoSilentCycle(k: Task) {
    forall q :: !Leads(k, q, q)
  }

  lemma {:induction false} SilentConcat(k: Task, p: int, u: seq<nat>, q: int, v: seq<nat>, r: int)
    requires SilentPath(k, p, u, q) && SilentPath(k, q, v, r)
    ensures SilentPath(k, p, u + v, r)
    decreases u
  {
    assert (u + v)[1..] == u[1..] + v;
    if |u| > 1 {
      SilentConcat(k, k.t[u[0]].target, u[1..], q, v, r);
    }
  }

  // How many states silence leads to.
  ghost function Rank(k: Task, p: int): nat {
    |Silently(k, p)|
  }

  ghost function Silently(k: Task, p: int): set<int> {
    set q | q in Below(k.n) && Leads(k, p, q)
  }

  lemma RankFalls(k: Task, i: nat)
    requires TaskOK(k) && NoSilentCycle(k) && i < |k.t| && Silent(k, i)
    ensures Rank(k, k.t[i].target) < Rank(k, k.t[i].state)
  {
    var p, q := k.t[i].state, k.t[i].target;
    assert LineOK(k.t[i], k.n);
    assert SilentPath(k, p, [i], q);
    assert Leads(k, p, q);
    forall r | r in Silently(k, q) ensures r in Silently(k, p) {
      var path :| SilentPath(k, q, path, r);
      SilentConcat(k, p, [i], q, path, r);
    }
    assert q in Silently(k, p) && q !in Silently(k, q);
    SubsetSize(Silently(k, q), Silently(k, p));
  }

  // Every step consumes input or comes closer to the end of the silence.
  lemma Progress(k: Task, c: Config, i: nat)
    requires TaskOK(k) && NoSilentCycle(k) && ConfigOK(k, c) && i < |k.t| && k.t[i].state == c.state
             && Follow(k, c, i).Some?
    ensures var d := Follow(k, c, i).value;
            c.ipos < d.ipos <= |k.word| || (d.ipos == c.ipos && Rank(k, d.state) < Rank(k, c.state))
  {
    if Silent(k, i) {
      RankFalls(k, i);
    }
  }

  // ---- The arcs of a state, in the order of the search ----

  // The lines of q from i on.
  ghost function Row(k: Task, q: int, i: nat): seq<nat>
    requires i <= |k.t|
    decreases |k.t| - i
  {
    if i == |k.t| || k.t[i].state != q || k.t[i].inp == -1 then [] else [i] + Row(k, q, i + 1)
  }

  ghost predicate Indexed(k: Task, q: int) {
    q >= 0 && Slot(q, EPSILON) in k.lists
  }

  function Seek(k: Task, ipos: nat): int {
    if ipos < |k.sigs| then k.sigs[ipos].signumber else k.beyond
  }

  // The list of a symbol goes on with that of EPSILON.
  ghost function Chained(k: Task, s: Slot): seq<nat>
    requires s in k.lists && Slot(s.state, EPSILON) in k.lists
  {
    (if s.sym == EPSILON then [] else k.lists[s]) + k.lists[Slot(s.state, EPSILON)]
  }

  ghost function Arcs(k: Task, c: Config): seq<nat>
    requires TaskOK(k) && ConfigOK(k, c)
  {
    if Indexed(k, c.state) then Chained(k, Slot(c.state, Seek(k, c.ipos))) else Row(k, c.state, k.first[c.state])
  }

  // Lines with arcs of the state q.
  ghost predicate LinesOf(k: Task, q: int, lines: seq<nat>) {
    forall i :: i in lines ==> i < |k.t| && k.t[i].state == q && k.t[i].inp != -1
  }

  lemma {:induction false} RowIs(k: Task, q: int, i: nat)
    requires i <= |k.t|
    ensures LinesOf(k, q, Row(k, q, i)) && NoDup(Row(k, q, i)) && forall j :: j in Row(k, q, i) ==> j >= i
    decreases |k.t| - i
  {
    if !(i == |k.t| || k.t[i].state != q || k.t[i].inp == -1) {
      RowIs(k, q, i + 1);
      var row, rest := Row(k, q, i), Row(k, q, i + 1);
      forall a, b | 0 <= a < b < |row| ensures row[a] != row[b] {
        assert row[b] == rest[b - 1] && rest[b - 1] in rest;
      }
    }
  }

  lemma {:induction false} RowHas(k: Task, c: Config, i: nat, m: nat)
    requires TaskOK(k) && ConfigOK(k, c) && InRow(k, c.state, i) && i <= m < |k.t| && k.t[m].state == c.state
    requires Follow(k, c, m).Some?
    ensures m in Row(k, c.state, i)
    decreases |k.t| - i
  {
    if k.t[i].state != c.state || k.t[i].inp == -1 {
      RowOver(k, c, i, m);
    } else if i < m {
      RowHas(k, c, i + 1, m);
    }
  }

  // The search comes by every line that can be followed, and by none twice.
  lemma ArcsAre(k: Task, c: Config)
    requires TaskOK(k) && ConfigOK(k, c)
    ensures LinesOf(k, c.state, Arcs(k, c)) && NoDup(Arcs(k, c))
    ensures forall i :: 0 <= i < |k.t| && k.t[i].state == c.state && Follow(k, c, i).Some? ==> i in Arcs(k, c)
  {
    if Indexed(k, c.state) {
      ChainedAre(k, c, Slot(c.state, Seek(k, c.ipos)));
    } else {
      RowIs(k, c.state, k.first[c.state]);
      assert FirstLine(k, c.state);
      forall i | 0 <= i < |k.t| && k.t[i].state == c.state && Follow(k, c, i).Some? ensures i in Arcs(k, c) {
        RowHas(k, c, k.first[c.state], i);
      }
    }
  }

  lemma ChainedAre(k: Task, c: Config, s: Slot)
    requires TaskOK(k) && ConfigOK(k, c) && Indexed(k, c.state) && s == Slot(c.state, Seek(k, c.ipos))
    ensures LinesOf(k, c.state, Chained(k, s)) && NoDup(Chained(k, s))
    ensures forall i :: 0 <= i < |k.t| && k.t[i].state == c.state && Follow(k, c, i).Some? ==> i in Chained(k, s)
  {
    var eps, lines := Slot(c.state, EPSILON), Chained(k, s);
    var own := if s.sym == EPSILON then [] else k.lists[s];
    assert FiledBelow(k, |k.t|, s, k.lists[s]) && FiledBelow(k, |k.t|, eps, k.lists[eps]);
    forall i | i in lines ensures i < |k.t| && k.t[i].state == c.state && k.t[i].inp != -1 {
      assert i in k.lists[s] || i in k.lists[eps];
      assert LineOK(k.t[i], k.n);
    }
    forall a, b | 0 <= a < b < |lines| ensures lines[a] != lines[b] {
      if a < |own| <= b {
        assert lines[a] in k.lists[s] && lines[b] in k.lists[eps];
      }
    }
    forall i | 0 <= i < |k.t| && k.t[i].state == c.state && Follow(k, c, i).Some? ensures i in lines {
      assert LineOK(k.t[i], k.n);
      assert i in k.lists[s] || i in k.lists[eps];
    }
  }

  // ---- All accepting paths, in order ----

  ghost function Prefixed(i: nat, paths: seq<seq<nat>>): (r: seq<seq<nat>>)
    ensures |r| == |paths| && forall j :: 0 <= j < |paths| ==> r[j] == [i] + paths[j]
  {
    seq(|paths|, j requires 0 <= j < |paths| => [i] + paths[j])
  }

  ghost function All(k: Task, c: Config): seq<seq<nat>>
    requires TaskOK(k) && NoSilentCycle(k) && ConfigOK(k, c)
    decreases |k.word| - c.ipos, Rank(k, c.state), 1, 0
  {
    (if Final(k, c) then [[]] else []) + From(k, c, Arcs(k, c))
  }

  // The accepting paths that begin with one of the lines.
  ghost function From(k: Task, c: Config, lines: seq<nat>): seq<seq<nat>>
    requires TaskOK(k) && NoSilentCycle(k) && ConfigOK(k, c)
    decreases |k.word| - c.ipos, Rank(k, c.state), 0, |lines|
  {
    if lines == [] then []
    else
      var i := lines[0];
      (if i >= |k.t| || k.t[i].state != c.state || Follow(k, c, i).None? then []
       else
         Progress(k, c, i);
         Prefixed(i, All(k, Follow(k, c, i).value)))
      + From(k, c, lines[1..])
  }

  // i is within the lines of q, or just after them.
  ghost predicate InRow(k: Task, q: int, i: nat)
    requires 0 <= q < |k.first|
  {
    k.first[q] <= i <= |k.t| && forall j :: k.first[q] <= j < i ==> k.t[j].state == q && k.t[j].inp != -1
  }

  lemma {:induction false} AllAccepting(k: Task, c: Config, path: seq<nat>)
    requires TaskOK(k) && NoSilentCycle(k) && ConfigOK(k, c)
    ensures path in All(k, c) <==> AcceptingPath(k, c, path)
    decreases |k.word| - c.ipos, Rank(k, c.state), 1, 0
  {
    hide Arcs;
    ArcsAre(k, c);
    var from := From(k, c, Arcs(k, c));
    FromAccepting(k, c, Arcs(k, c), path);
    if path == [] {
      assert path in [[]] + from by {
        assert ([[]] + from)[0] == path;
      }
    }
  }

  lemma {:induction false} FromAccepting(k: Task, c: Config, lines: seq<nat>, path: seq<nat>)
    requires TaskOK(k) && NoSilentCycle(k) && ConfigOK(k, c) && LinesOf(k, c.state, lines)
    ensures path in From(k, c, lines) <==> path != [] && path[0] in lines && AcceptingPath(k, c, path)
    decreases |k.word| - c.ipos, Rank(k, c.state), 0, |lines|
  {
    hide Prefixed, Final, Rank, Eats, FlagsAfter, TaskOK;
    if lines != [] {
      var i, rest := lines[0], From(k, c, lines[1..]);
      assert i in lines && lines == [i] + lines[1..];
      FromAccepting(k, c, lines[1..], path);
      if Follow(k, c, i).Some? {
        var d := Follow(k, c, i).value;
        Progress(k, c, i);
        var here := Prefixed(i, All(k, d));
        assert From(k, c, lines) == here + rest;
        HeadIs(i, All(k, d), path);
        if path != [] && path[0] == i {
          AllAccepting(k, d, path[1..]);
        }
      } else {
        assert From(k, c, lines) == [] + rest;
      }
    }
  }

  lemma HeadIs(i: nat, paths: seq<seq<nat>>, path: seq<nat>)
    ensures path in Prefixed(i, paths) <==> path != [] && path[0] == i && path[1..] in paths
  {
    if path in Prefixed(i, paths) {
      var j :| 0 <= j < |paths| && Prefixed(i, paths)[j] == path;
      assert path[1..] == paths[j];
    }
    if path != [] && path[0] == i && path[1..] in paths {
      var j :| 0 <= j < |paths| && paths[j] == path[1..];
      assert Prefixed(i, paths)[j] == [i] + path[1..] == path;
    }
  }

  // No line of the state can be followed from i on.
  lemma RowOver(k: Task, c: Config, i: nat, m: nat)
    requires TaskOK(k) && ConfigOK(k, c) && InRow(k, c.state, i) && i <= m < |k.t| && k.t[m].state == c.state
    requires i == |k.t| || k.t[i].state != c.state || k.t[i].inp == -1
    ensures Follow(k, c, m).None?
  {
    var first := k.first[c.state];
    assert FirstLine(k, c.state);
    if k.t[i].state != c.state {
      Pointers.Between(k.t, first, i, m);
    } else {
      assert LineOK(k.t[i], k.n);
      assert k.t[i].target == -1 && m == i;
    }
  }

  lemma {:induction false} AllDistinct(k: Task, c: Config)
    requires TaskOK(k) && NoSilentCycle(k) && ConfigOK(k, c)
    ensures NoDup(All(k, c))
    decreases |k.word| - c.ipos, Rank(k, c.state), 1, 0
  {
    hide Arcs;
    ArcsAre(k, c);
    FromDistinct(k, c, Arcs(k, c));
    var rest := From(k, c, Arcs(k, c));
    FromAccepting(k, c, Arcs(k, c), []);
    assert [] + rest == rest;
  }

  lemma {:induction false} FromDistinct(k: Task, c: Config, lines: seq<nat>)
    requires TaskOK(k) && NoSilentCycle(k) && ConfigOK(k, c) && LinesOf(k, c.state, lines) && NoDup(lines)
    ensures NoDup(From(k, c, lines))
    decreases |k.word| - c.ipos, Rank(k, c.state), 0, |lines|
  {
    hide Final, Rank, Eats, FlagsAfter, AcceptingPath, Follow, TaskOK;
    if lines != [] {
      var i, rest := lines[0], From(k, c, lines[1..]);
      assert i in lines;
      FromDistinct(k, c, lines[1..]);
      if Follow(k, c, i).Some? {
        var d := Follow(k, c, i).value;
        Progress(k, c, i);
        AllDistinct(k, d);
        var here := Prefixed(i, All(k, d));
        assert From(k, c, lines) == here + rest;
        forall a, b | 0 <= a < b < |here| ensures here[a] != here[b] {
          assert here[a][1..] == All(k, d)[a] && here[b][1..] == All(k, d)[b];
        }
        forall a, b | 0 <= a < |here| && 0 <= b < |rest| ensures here[a] != rest[b] {
          FromAccepting(k, c, lines[1..], rest[b]);
          assert here[a][0] == i;
        }
      } else {
        assert From(k, c, lines) == [] + rest;
      }
    }
  }
}
