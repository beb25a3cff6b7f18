// Alphabets of nets, and what letters mean over all symbols, known or not: @ is
// any unknown symbol read and written alike, ? is any unknown symbol, and ?:?
// is a pair of different ones.

module Alphabets {
  import opened Nets
  import opened Options

  datatype Sym = Sym(number: int, symbol: string)

  // strcmp(a, b) < 0.
  predicate Less(a: string, b: string)
    decreases a
  {
    b != [] && (a == [] || a[0] < b[0] || (a[0] == b[0] && Less(a[1..], b[1..])))
  }

  lemma {:induction false} LessTotal(a: string, b: string)
    ensures Less(a, b) || a == b || Less(b, a)
    ensures !(Less(a, b) && Less(b, a)) && !Less(a, a)
    decreases a
  {
    if a != [] {
      LessTotal(a[1..], a[1..]);
      if b != [] {
        LessTotal(a[1..], b[1..]);
        assert a == [a[0]] + a[1..] && b == [b[0]] + b[1..];
      }
    }
  }

  lemma {:induction false} LessTrans(a: string, b: string, c: string)
    requires Less(a, b) && Less(b, c)
    ensures Less(a, c)
    decreases a
  {
    if a != [] && a[0] == b[0] && b[0] == c[0] {
      LessTrans(a[1..], b[1..], c[1..]);
    }
  }

  // A sorted alphabet: numbers ascend, and symbols above @ in their order.
  ghost predicate SigmaOK(s: seq<Sym>) {
    && (forall i :: 0 <= i < |s| ==> s[i].number >= 0)
    && (forall i, j :: 0 <= i < j < |s| ==> s[i].number < s[j].number)
    && (forall i, j :: 0 <= i < j < |s| && s[i].number > IDENTITY ==> Less(s[i].symbol, s[j].symbol))
  }

  ghost predicate Named(s: seq<Sym>, n: int, x: string) {
    exists k :: 0 <= k < |s| && s[k].number == n > IDENTITY && s[k].symbol == x
  }

  ghost predicate Known(s: seq<Sym>, x: string) {
    exists k :: 0 <= k < |s| && s[k].number > IDENTITY && s[k].symbol == x
  }

  lemma NamedOnce(s: seq<Sym>, c: int, d: int, x: string, y: string)
    requires SigmaOK(s) && Named(s, c, x) && Named(s, d, y)
    ensures c == d <==> x == y
  {
    var i :| 0 <= i < |s| && s[i].number == c > IDENTITY && s[i].symbol == x;
    var j :| 0 <= j < |s| && s[j].number == d > IDENTITY && s[j].symbol == y;
    LessTotal(x, y);
    LessTotal(x, x);
  }

  ghost predicate HasNumber(s: seq<Sym>, n: int) {
    exists k :: 0 <= k < |s| && s[k].number == n
  }

  // x, a symbol or nothing, is among what n stands for.
  ghost predicate Stands(s: seq<Sym>, n: int, x: Option<string>) {
    if n == EPSILON then x.None?
    else if n == UNKNOWN || n == IDENTITY then x.Some? && !Known(s, x.value)
    else x.Some? && Named(s, n, x.value)
  }

  ghost predicate Denotes(s: seq<Sym>, l: Letter, x: Option<string>, y: Option<string>) {
    && Stands(s, l.inp, x) && Stands(s, l.outp, y)
    && (l.inp == l.outp == IDENTITY ==> x == y)
    && (l.inp == l.outp == UNKNOWN ==> x != y)
  }

  // @ stands only opposite itself.
  ghost predicate Matched(l: Letter) {
    l.inp == IDENTITY <==> l.outp == IDENTITY
  }

  // A letter of a net with this alphabet.
  ghost predicate LetterOK(s: seq<Sym>, l: Letter) {
    && l.inp >= 0 && l.outp >= 0 && Matched(l)
    && (l.inp != EPSILON ==> HasNumber(s, l.inp)) && (l.outp != EPSILON ==> HasNumber(s, l.outp))
  }

  // ---- The open language ----

  datatype Pair = Pair(x: Option<string>, y: Option<string>)

  ghost predicate Reads(s: seq<Sym>, ls: seq<Letter>, w: seq<Pair>) {
    |ls| == |w| && forall i :: 0 <= i < |ls| ==> Denotes(s, ls[i], w[i].x, w[i].y)
  }

  ghost predicate OpenAccepts(m: Net, s: seq<Sym>, w: seq<Pair>) {
    exists ls :: Accepts(m, ls) && Reads(s, ls, w)
  }

  // A step over a letter other than 0:0.
  ghost predicate Moves(arcs: set<Arc>, s: seq<Sym>, p: int, xy: Pair, q: int) {
    exists l :: l != EPS && Arc(p, l, q) in arcs && Denotes(s, l, xy.x, xy.y)
  }

  ghost predicate SameMoves(arcs: set<Arc>, s: seq<Sym>, arcs': set<Arc>, s': seq<Sym>) {
    && (forall p, q :: Arc(p, EPS, q) in arcs ==> Arc(p, EPS, q) in arcs')
    && (forall p, xy, q :: Moves(arcs, s, p, xy, q) ==> Moves(arcs', s', p, xy, q))
  }

  lemma {:induction false} MovePath(arcs: set<Arc>, s: seq<Sym>, arcs': set<Arc>, s': seq<Sym>, p: int, path: seq<Arc>,
                                    q: int, w: seq<Pair>)
    returns (path': seq<Arc>)
    requires SameMoves(arcs, s, arcs', s') && Path(arcs, p, path, q) && Reads(s, Word(path), w)
    ensures Path(arcs', p, path', q) && Reads(s', Word(path'), w)
    decreases path
  {
    hide Denotes;
    if path == [] {
      path' := [];
    } else {
      var a := path[0];
      if a.letter == EPS {
        assert a == Arc(p, EPS, a.dst);
        assert Word(path) == [] + Word(path[1..]) == Word(path[1..]);
        var rest := MovePath(arcs, s, arcs', s', a.dst, path[1..], q, w);
        path' := [a] + rest;
        assert path'[1..] == rest && Word(path') == [] + Word(rest) == Word(rest);
      } else {
        var xy := w[0];
        assert Word(path) == [a.letter] + Word(path[1..]);
        assert Word(path)[0] == a.letter && Word(path)[1..] == Word(path[1..]);
        assert a == Arc(p, a.letter, a.dst) && Denotes(s, Word(path)[0], xy.x, xy.y);
        assert Moves(arcs, s, p, xy, a.dst);
        assert Moves(arcs', s', p, xy, a.dst);
        var l :| l != EPS && Arc(p, l, a.dst) in arcs' && Denotes(s', l, xy.x, xy.y);
        ReadsTail(s, Word(path), w);
        var rest := MovePath(arcs, s, arcs', s', a.dst, path[1..], q, w[1..]);
        path' := [Arc(p, l, a.dst)] + rest;
        assert path'[1..] == rest && Word(path') == [l] + Word(rest);
        ReadsCons(s', l, Word(rest), w);
      }
    }
  }

  lemma ReadsTail(s: seq<Sym>, ls: seq<Letter>, w: seq<Pair>)
    requires Reads(s, ls, w) && w != []
    ensures Reads(s, ls[1..], w[1..])
  {
  }

  lemma ReadsCons(s: seq<Sym>, l: Letter, ls: seq<Letter>, w: seq<Pair>)
    requires w != [] && Reads(s, ls, w[1..]) && Denotes(s, l, w[0].x, w[0].y)
    ensures Reads(s, [l] + ls, w)
  {
    hide Denotes;
    forall i | 0 <= i < |w| ensures Denotes(s, ([l] + ls)[i], w[i].x, w[i].y) {
      assert i > 0 ==> ([l] + ls)[i] == ls[i - 1] && w[i] == w[1..][i - 1];
    }
  }

  // Nets with the same moves have the same open language.
  lemma SameOpenLanguage(m: Net, s: seq<Sym>, k: Net, s': seq<Sym>)
    requires SameMoves(m.arcs, s, k.arcs, s') && m.starts == k.starts && m.finals == k.finals
    ensures forall w :: OpenAccepts(m, s, w) ==> OpenAccepts(k, s', w)
  {
    forall w | OpenAccepts(m, s, w) ensures OpenAccepts(k, s', w) {
      var ls :| Accepts(m, ls) && Reads(s, ls, w);
      var p, q :| p in m.starts && q in m.finals && Spells(m.arcs, p, ls, q);
      var path :| Path(m.arcs, p, path, q) && Word(path) == ls;
      var path' := MovePath(m.arcs, s, k.arcs, s', p, path, q, w);
      assert Spells(k.arcs, p, Word(path'), q);
      assert Accepts(k, Word(path'));
    }
  }

  // ---- One coding of every string of pairs ----

  // The number of x opposite y: an unknown symbol is @ opposite itself, else ?.
  ghost function NumberOf(s: seq<Sym>, x: Option<string>, y: Option<string>): (n: int)
    ensures Stands(s, n, x)
    ensures n == IDENTITY <==> x.Some? && !Known(s, x.value) && x == y
  {
    if x.None? then EPSILON
    else if k :| 0 <= k < |s| && s[k].number > IDENTITY && s[k].symbol == x.value then s[k].number
    else if x == y then IDENTITY else UNKNOWN
  }

  ghost function Coded(s: seq<Sym>, w: seq<Pair>): seq<Letter> {
    seq(|w|, i requires 0 <= i < |w| => Letter(NumberOf(s, w[i].x, w[i].y), NumberOf(s, w[i].y, w[i].x)))
  }

  lemma CodedReads(s: seq<Sym>, w: seq<Pair>)
    ensures Reads(s, Coded(s, w), w)
  {
  }

  // No other letter denotes the pair.
  lemma LetterAlone(s: seq<Sym>, l: Letter, x: Option<string>, y: Option<string>)
    requires SigmaOK(s) && Matched(l) && Denotes(s, l, x, y)
    ensures l == Letter(NumberOf(s, x, y), NumberOf(s, y, x))
  {
    hide SigmaOK;
    if l.inp > IDENTITY {
      NamedOnce(s, l.inp, NumberOf(s, x, y), x.value, x.value);
    }
    if l.outp > IDENTITY {
      NamedOnce(s, l.outp, NumberOf(s, y, x), y.value, y.value);
    }
  }

  ghost predicate AllMatched(ls: seq<Letter>) {
    forall i :: 0 <= i < |ls| ==> Matched(ls[i])
  }

  lemma CodedAlone(s: seq<Sym>, ls: seq<Letter>, w: seq<Pair>)
    requires SigmaOK(s) && AllMatched(ls) && Reads(s, ls, w)
    ensures ls == Coded(s, w)
  {
    hide SigmaOK, Denotes, Matched;
    forall i | 0 <= i < |w| ensures ls[i] == Coded(s, w)[i] {
      LetterAlone(s, ls[i], w[i].x, w[i].y);
    }
  }

  ghost predicate MatchedArcs(m: Net) {
    forall a :: a in m.arcs ==> Matched(a.letter)
  }

  lemma {:induction false} MatchedWord(m: Net, p: int, path: seq<Arc>, q: int)
    requires MatchedArcs(m) && Path(m.arcs, p, path, q)
    ensures AllMatched(Word(path))
    decreases path
  {
    hide Matched;
    if path != [] {
      MatchedWord(m, path[0].dst, path[1..], q);
    }
  }

  lemma AcceptsMatched(m: Net, ls: seq<Letter>)
    requires MatchedArcs(m) && Accepts(m, ls)
    ensures AllMatched(ls)
  {
    var p, q :| p in m.starts && q in m.finals && Spells(m.arcs, p, ls, q);
    var path :| Path(m.arcs, p, path, q) && Word(path) == ls;
    MatchedWord(m, p, path, q);
  }

  // A net accepts a string of pairs when it accepts its one coding.
  lemma OpenIsCoded(m: Net, s: seq<Sym>, w: seq<Pair>)
    requires SigmaOK(s) && MatchedArcs(m)
    ensures OpenAccepts(m, s, w) <==> Accepts(m, Coded(s, w))
  {
    hide Accepts, SigmaOK, MatchedArcs, AllMatched, Reads;
    CodedReads(s, w);
    if ls :| Accepts(m, ls) && Reads(s, ls, w) {
      AcceptsMatched(m, ls);
      CodedAlone(s, ls, w);
    }
  }

  // ---- The two tapes ----

  function Symbols(x: Option<string>): seq<string> {
    if x.Some? then [x.value] else []
  }

  function Inputs(w: seq<Pair>): seq<string> {
    if w == [] then [] else Symbols(w[0].x) + Inputs(w[1..])
  }

  function Outputs(w: seq<Pair>): seq<string> {
    if w == [] then [] else Symbols(w[0].y) + Outputs(w[1..])
  }

  // The relation of a net between strings of symbols.
  ghost predicate OpenRelates(m: Net, s: seq<Sym>, x: seq<string>, y: seq<string>) {
    exists w :: OpenAccepts(m, s, w) && Inputs(w) == x && Outputs(w) == y
  }

  lemma TapesCons(xy: Pair, w: seq<Pair>)
    ensures Inputs([xy] + w) == Symbols(xy.x) + Inputs(w) && Outputs([xy] + w) == Symbols(xy.y) + Outputs(w)
  {
    assert ([xy] + w)[1..] == w;
  }

  // There are unknown symbols besides any two.
  lemma AnotherUnknown(s: seq<Sym>, x: string, y: string) returns (z: string)
    ensures !Known(s, z) && z != x && z != y
  {
    var n := Lengths(s);
    z := seq(n + |x| + |y| + 1, _ => 'a');
    forall k | 0 <= k < |s| ensures s[k].symbol != z {
      LengthsCover(s, k);
    }
  }

  ghost function Lengths(s: seq<Sym>): nat {
    if s == [] then 0 else |s[0].symbol| + Lengths(s[1..])
  }

  lemma {:induction false} LengthsCover(s: seq<Sym>, k: nat)
    requires k < |s|
    ensures |s[k].symbol| <= Lengths(s)
    decreases s
  {
    if k > 0 {
      LengthsCover(s[1..], k - 1);
    }
  }
}
