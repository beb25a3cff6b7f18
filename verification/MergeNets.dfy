// fsm_merge_sigma (constructions.c): two nets get one alphabet, and each keeps
// its language over all symbols.

module MergeNets {
  import opened Nets
  import Order
  import Pointers
  import opened Options
  import opened Alphabets
  import opened MergeSigma
  import opened Expansion

  // copy_mergesigma.
  function AsSigma(ms: seq<MSym>): (s: seq<Sym>)
    ensures |s| == |ms| && forall k :: 0 <= k < |ms| ==> s[k] == Sym(ms[k].number, ms[k].symbol)
  {
    seq(|ms|, k requires 0 <= k < |ms| => Sym(ms[k].number, ms[k].symbol))
  }

  // ---- The new alphabet ----

  lemma MergedSigma(ms: seq<MSym>, s1: seq<Sym>, s2: seq<Sym>)
    requires Merged(ms, s1, |s1|, s2, |s2|)
    ensures SigmaOK(AsSigma(ms))
    ensures forall x :: Known(AsSigma(ms), x) <==> Known(s1, x) || Known(s2, x)
  {
    hide Less;
    var s := AsSigma(ms);
    forall i, j | 0 <= i < j < |s| && s[i].number > IDENTITY ensures Less(s[i].symbol, s[j].symbol) {
      assert KeyLess(MKey(ms[i]), MKey(ms[j]));
    }
    forall x ensures Known(s, x) <==> Known(s1, x) || Known(s2, x) {
      KnownMerged(ms, s1, s2, x);
    }
  }

  lemma KnownMerged(ms: seq<MSym>, s1: seq<Sym>, s2: seq<Sym>, x: string)
    requires Merged(ms, s1, |s1|, s2, |s2|)
    ensures Known(AsSigma(ms), x) <==> Known(s1, x) || Known(s2, x)
  {
    hide Less, Dense, KeyLess;
    var s := AsSigma(ms);
    KeyKnown(s1, x);
    KeyKnown(s2, x);
    if Known(s, x) {
      var k :| 0 <= k < |s| && s[k].number > IDENTITY && s[k].symbol == x;
      assert PresenceOK(ms[k], s1, s2);
    }
    if Known(s1, x) {
      var a :| 0 <= a < |s1| && s1[a].number > IDENTITY && s1[a].symbol == x;
      assert HasMKey(ms, SymKey(s1[a]));
    }
    if Known(s2, x) {
      var b :| 0 <= b < |s2| && s2[b].number > IDENTITY && s2[b].symbol == x;
      assert HasMKey(ms, SymKey(s2[b]));
    }
  }

  lemma KeyKnown(s: seq<Sym>, x: string)
    ensures HasKey(s, Ordinary(x)) <==> Known(s, x)
  {
    if HasKey(s, Ordinary(x)) {
      var i :| 0 <= i < |s| && SymKey(s[i]) == Ordinary(x);
    }
    if Known(s, x) {
      var i :| 0 <= i < |s| && s[i].number > IDENTITY && s[i].symbol == x;
      assert SymKey(s[i]) == Ordinary(x);
    }
  }

  lemma LessAt(s: seq<Sym>, i: nat, j: nat)
    requires SigmaOK(s) && i < |s| && j < |s| && s[i].number > IDENTITY
    ensures i < j ==> Less(s[i].symbol, s[j].symbol)
  {
  }

  // The numbers keep their order.
  lemma OrderKept(ms: seq<MSym>, s: seq<Sym>, mapping: seq<int>, a: nat, b: nat)
    requires Dense(ms) && SigmaOK(AsSigma(ms)) && SigmaOK(s) && Mapped(mapping, s, |s|, ms) && a < b < |s|
             && s[a].number > IDENTITY
    ensures mapping[s[a].number] < mapping[s[b].number]
  {
    hide Less;
    var i :| 0 <= i < |ms| && ms[i].number == mapping[s[a].number] > IDENTITY && ms[i].symbol == s[a].symbol;
    assert NumberIn(ms, s[b].symbol, mapping[s[b].number]);
    var j :| 0 <= j < |ms| && ms[j].number == mapping[s[b].number] > IDENTITY && ms[j].symbol == s[b].symbol;
    LessTotal(s[a].symbol, s[b].symbol);
    LessAt(AsSigma(ms), j, i);
    LessTotal(s[a].symbol, s[a].symbol);
  }

  // What one of the two nets needs to know: mapping keeps the names, and the
  // new symbols are those of presence other.
  ghost predicate Extends(s: seq<Sym>, ms: seq<MSym>, mapping: seq<int>, other: int) {
    && SigmaOK(s) && SigmaOK(AsSigma(ms)) && (forall a :: 0 <= a < |s| ==> s[a].number < |mapping|)
    && (forall n, x :: Named(s, n, x) ==> n < |mapping| && Named(AsSigma(ms), mapping[n], x))
    && (forall c, x :: Named(AsSigma(ms), c, x) ==> (IsNew(ms, other, c) <==> !Known(s, x)))
    && (forall c :: IsNew(ms, other, c) ==> exists x :: Named(AsSigma(ms), c, x))
    && (forall x :: Known(s, x) ==> Known(AsSigma(ms), x))
  }

  lemma FirstExtends(g: Merge, s1: seq<Sym>, s2: seq<Sym>)
    requires SigmaOK(s1) && SigmaOK(s2) && Merging(g, s1, |s1|, s2, |s2|)
    ensures Extends(s1, g.ms, g.mapping1, 2) && Extends(s2, g.ms, g.mapping2, 1)
  {
    MergedSigma(g.ms, s1, s2);
    SideExtends(g.ms, g.mapping1, s1, s2, s1, 2);
    SideExtends(g.ms, g.mapping2, s1, s2, s2, 1);
  }

  lemma SideExtends(ms: seq<MSym>, mapping: seq<int>, s1: seq<Sym>, s2: seq<Sym>, s: seq<Sym>, other: int)
    requires SigmaOK(s) && Merged(ms, s1, |s1|, s2, |s2|) && Mapped(mapping, s, |s|, ms)
    requires SigmaOK(AsSigma(ms)) && forall x :: Known(AsSigma(ms), x) <==> Known(s1, x) || Known(s2, x)
    requires (s == s1 && other == 2) || (s == s2 && other == 1)
    ensures Extends(s, ms, mapping, other)
  {
    hide SigmaOK, Merged;
    var M := AsSigma(ms);
    forall n, x | Named(s, n, x) ensures n < |mapping| && Named(M, mapping[n], x) {
      NamedBelow(s, n, x);
      var a :| 0 <= a < |s| && s[a].number == n > IDENTITY && s[a].symbol == x;
      assert NumberIn(ms, x, mapping[n]);
      var k :| 0 <= k < |ms| && ms[k].number == mapping[n] > IDENTITY && ms[k].symbol == x;
      assert M[k].number == mapping[n];
    }
    forall c, x | Named(M, c, x) ensures IsNew(ms, other, c) <==> !Known(s, x) {
      NewIs(ms, s1, s2, s, other, c, x);
    }
    forall c | IsNew(ms, other, c) ensures exists x :: Named(M, c, x) {
      var k :| 0 <= k < |ms| && NewAt(ms, other, k) && ms[k].number == c;
      assert M[k].number == c > IDENTITY && Named(M, c, M[k].symbol);
    }
  }

  lemma NamedBelow(s: seq<Sym>, n: int, x: string)
    requires SigmaOK(s) && Named(s, n, x)
    ensures n >= 0
  {
  }

  lemma NewIs(ms: seq<MSym>, s1: seq<Sym>, s2: seq<Sym>, s: seq<Sym>, other: int, c: int, x: string)
    requires Merged(ms, s1, |s1|, s2, |s2|) && Named(AsSigma(ms), c, x)
    requires (s == s1 && other == 2) || (s == s2 && other == 1)
    ensures IsNew(ms, other, c) <==> !Known(s, x)
  {
    hide Less;
    var k :| 0 <= k < |ms| && AsSigma(ms)[k].number == c > IDENTITY && AsSigma(ms)[k].symbol == x;
    assert PresenceOK(ms[k], s1, s2);
    KeyKnown(s, x);
    KeyKnown(s1, x);
    KeyKnown(s2, x);
    if IsNew(ms, other, c) {
      var i :| 0 <= i < |ms| && NewAt(ms, other, i) && ms[i].number == c;
      assert i == k;
    }
    if !Known(s, x) {
      assert NewAt(ms, other, k);
    }
  }

  // ---- What letters mean ----

  function Renumber(n: int, mapping: seq<int>): int {
    if IDENTITY < n < |mapping| then mapping[n] else n
  }

  function RenumberLetter(l: Letter, mapping: seq<int>): Letter {
    Letter(Renumber(l.inp, mapping), Renumber(l.outp, mapping))
  }

  // What a number stood for, it or a new one stands for now.
  lemma StandsOn(s: seq<Sym>, ms: seq<MSym>, mapping: seq<int>, other: int, n: int, x: Option<string>)
    requires Extends(s, ms, mapping, other) && n >= 0 && (n > IDENTITY ==> HasNumber(s, n))
    ensures n == EPSILON || n > IDENTITY ==> (Stands(s, n, x) <==> Stands(AsSigma(ms), Renumber(n, mapping), x))
    ensures n == UNKNOWN || n == IDENTITY ==> (Stands(s, n, x) <==> Stands(AsSigma(ms), n, x)
                                                                    || exists c :: IsNew(ms, other, c)
                                                                                   && Stands(AsSigma(ms), c, x))
    ensures n > IDENTITY ==> Renumber(n, mapping) > IDENTITY
  {
    var M := AsSigma(ms);
    if n > IDENTITY {
      var a :| 0 <= a < |s| && s[a].number == n;
      var y := s[a].symbol;
      assert Named(s, n, y) && Named(M, mapping[n], y);
      hide Extends;
      ExtendsOK(s, ms, mapping, other);
      if x.Some? && Named(s, n, x.value) {
        NamedOnce(s, n, n, x.value, y);
      }
      if x.Some? && Named(M, mapping[n], x.value) {
        NamedOnce(M, mapping[n], mapping[n], x.value, y);
      }
    } else if n == UNKNOWN || n == IDENTITY {
      if x.Some? && !Known(s, x.value) && Known(M, x.value) {
        var k :| 0 <= k < |M| && M[k].number > IDENTITY && M[k].symbol == x.value;
        assert Named(M, M[k].number, x.value);
        assert IsNew(ms, other, M[k].number) && Stands(M, M[k].number, x);
      }
      if c :| IsNew(ms, other, c) && Stands(M, c, x) {
        NewAbove(ms, other, c);
        assert Named(M, c, x.value);
      }
    }
  }

  lemma ExtendsOK(s: seq<Sym>, ms: seq<MSym>, mapping: seq<int>, other: int)
    requires Extends(s, ms, mapping, other)
    ensures SigmaOK(s) && SigmaOK(AsSigma(ms))
  {
  }

  lemma NewAbove(ms: seq<MSym>, other: int, c: int)
    requires IsNew(ms, other, c)
    ensures c > IDENTITY
  {
  }

  // Different new numbers stand for different symbols, and none of them is unknown.
  lemma NewApart(ms: seq<MSym>, other: int, c: int, d: int, x: Option<string>, y: Option<string>)
    requires SigmaOK(AsSigma(ms)) && IsNew(ms, other, c) && Stands(AsSigma(ms), c, x) && Stands(AsSigma(ms), d, y)
    ensures IsNew(ms, other, d) ==> (c == d <==> x == y)
    ensures d == UNKNOWN ==> x != y
  {
    NewAbove(ms, other, c);
    var M := AsSigma(ms);
    if IsNew(ms, other, d) {
      NewAbove(ms, other, d);
      NamedOnce(M, c, d, x.value, y.value);
    }
    if d == UNKNOWN {
      var k :| 0 <= k < |M| && M[k].number == c > IDENTITY && M[k].symbol == x.value;
      assert Known(M, x.value);
    }
  }

  ghost predicate Reach(ms: seq<MSym>, other: int, l: Letter, x: Option<string>, y: Option<string>) {
    exists l' :: ExpandsTo(ms, other, l, l') && Denotes(AsSigma(ms), l', x, y)
  }

  lemma LetterForth(s: seq<Sym>, ms: seq<MSym>, mapping: seq<int>, other: int, l: Letter, x: Option<string>,
                    y: Option<string>)
    requires Extends(s, ms, mapping, other) && LetterOK(s, l) && Denotes(s, l, x, y)
    ensures Reach(ms, other, RenumberLetter(l, mapping), x, y)
  {
    var M, r := AsSigma(ms), RenumberLetter(l, mapping);
    StandsOn(s, ms, mapping, other, l.inp, x);
    StandsOn(s, ms, mapping, other, l.outp, y);
    ExtendsOK(s, ms, mapping, other);
    hide Extends, Stands, IsNew, SigmaOK;
    var inNew := (l.inp == UNKNOWN || l.inp == IDENTITY) && !Stands(M, l.inp, x);
    var outNew := (l.outp == UNKNOWN || l.outp == IDENTITY) && !Stands(M, l.outp, y);
    var c := if inNew then NewFor(ms, other, x) else r.inp;
    var d := if outNew then NewFor(ms, other, y) else r.outp;
    if inNew {
      NewAbove(ms, other, c);
      NewApart(ms, other, c, d, x, y);
    }
    if outNew {
      NewAbove(ms, other, d);
      NewApart(ms, other, d, c, y, x);
    }
    var l' := Letter(c, d);
    assert ExpandsTo(ms, other, r, l') && Denotes(M, l', x, y);
  }

  // The new symbol that stands for x.
  ghost function NewFor(ms: seq<MSym>, other: int, x: Option<string>): (c: int)
    requires exists c :: IsNew(ms, other, c) && Stands(AsSigma(ms), c, x)
    ensures IsNew(ms, other, c) && Stands(AsSigma(ms), c, x)
  {
    var c :| IsNew(ms, other, c) && Stands(AsSigma(ms), c, x);
    c
  }

  lemma LetterBack(s: seq<Sym>, ms: seq<MSym>, mapping: seq<int>, other: int, l: Letter, l': Letter, x: Option<string>,
                   y: Option<string>)
    requires Extends(s, ms, mapping, other) && LetterOK(s, l)
    requires ExpandsTo(ms, other, RenumberLetter(l, mapping), l') && Denotes(AsSigma(ms), l', x, y)
    ensures Denotes(s, l, x, y)
  {
    StandsOn(s, ms, mapping, other, l.inp, x);
    StandsOn(s, ms, mapping, other, l.outp, y);
    ExtendsOK(s, ms, mapping, other);
    hide Extends, Stands, SigmaOK;
    if IsNew(ms, other, l'.inp) {
      NewAbove(ms, other, l'.inp);
      NewApart(ms, other, l'.inp, l'.outp, x, y);
    }
    if IsNew(ms, other, l'.outp) {
      NewAbove(ms, other, l'.outp);
      NewApart(ms, other, l'.outp, l'.inp, y, x);
    }
    hide IsNew;
  }

  // ---- Nets ----

  function RenumberLine(l: Line, mapping: seq<int>): Line {
    l.(inp := Renumber(l.inp, mapping), outp := Renumber(l.outp, mapping))
  }

  ghost predicate LineInSigma(s: seq<Sym>, l: Line) {
    if l.target == -1 then l.inp == l.outp == -1 else LetterOK(s, Letter(l.inp, l.outp))
  }

  // u has the renumbered lines of t, with their variants.
  ghost predicate Rewritten(u: seq<Line>, t: seq<Line>, mapping: seq<int>, ms: seq<MSym>, other: int) {
    && (forall k :: 0 <= k < |u| ==> FromLine(u[k], t, mapping, ms, other))
    && (forall a, l' :: 0 <= a < |t| && ExpandsTo(ms, other, LetterOf(RenumberLine(t[a], mapping)), l') ==>
                          With(t[a], l'.inp, l'.outp) in u)
  }

  ghost predicate FromLine(o: Line, t: seq<Line>, mapping: seq<int>, ms: seq<MSym>, other: int) {
    exists a :: 0 <= a < |t| && IsVariant(o, t[a], mapping, ms, other)
  }

  ghost predicate IsVariant(o: Line, l: Line, mapping: seq<int>, ms: seq<MSym>, other: int) {
    o == With(l, o.inp, o.outp) && ExpandsTo(ms, other, LetterOf(RenumberLine(l, mapping)), LetterOf(o))
  }

  lemma RenumberedArc(l: Line, mapping: seq<int>)
    requires l.inp >= 0 && l.outp >= 0
    ensures LetterOf(RenumberLine(l, mapping)) == RenumberLetter(Letter(l.inp, l.outp), mapping)
  {
  }

  // No letter but 0:0 becomes 0:0.
  lemma EpsilonStays(s: seq<Sym>, ms: seq<MSym>, mapping: seq<int>, other: int, l: Letter, l': Letter)
    requires Extends(s, ms, mapping, other) && LetterOK(s, l) && ExpandsTo(ms, other, RenumberLetter(l, mapping), l')
    ensures l == EPS <==> l' == EPS
    ensures l'.inp >= 0 && l'.outp >= 0
  {
    StandsOn(s, ms, mapping, other, l.inp, None);
    StandsOn(s, ms, mapping, other, l.outp, None);
    hide Extends, Stands;
    assert IsNew(ms, other, l'.inp) ==> l'.inp > IDENTITY;
    assert IsNew(ms, other, l'.outp) ==> l'.outp > IDENTITY;
  }

  ghost predicate Fits(t: seq<Line>, s: seq<Sym>, ms: seq<MSym>, mapping: seq<int>, other: int, u: seq<Line>) {
    Extends(s, ms, mapping, other) && (forall i :: 0 <= i < |t| ==> LineInSigma(s, t[i]))
        && Rewritten(u, t, mapping, ms, other)
  }

  lemma RewrittenBack(t: seq<Line>, s: seq<Sym>, ms: seq<MSym>, mapping: seq<int>, other: int, u: seq<Line>, k: nat)
    returns (a: nat)
    requires Fits(t, s, ms, mapping, other, u) && k < |u|
    ensures a < |t| && IsVariant(u[k], t[a], mapping, ms, other) && LineInSigma(s, t[a])
  {
    hide LineInSigma, Extends, ExpandsTo;
    assert FromLine(u[k], t, mapping, ms, other);
    a :| 0 <= a < |t| && IsVariant(u[k], t[a], mapping, ms, other);
  }

  lemma RewrittenForth(t: seq<Line>, s: seq<Sym>, ms: seq<MSym>, mapping: seq<int>, other: int, u: seq<Line>, a: nat,
                       l': Letter) returns (k: nat)
    requires Fits(t, s, ms, mapping, other, u) && a < |t|
             && ExpandsTo(ms, other, LetterOf(RenumberLine(t[a], mapping)), l')
    ensures k < |u| && u[k] == With(t[a], l'.inp, l'.outp)
  {
    hide LineInSigma, Extends, ExpandsTo;
    assert With(t[a], l'.inp, l'.outp) in u;
    k :| 0 <= k < |u| && u[k] == With(t[a], l'.inp, l'.outp);
  }

  lemma MovesForth(t: seq<Line>, s: seq<Sym>, ms: seq<MSym>, mapping: seq<int>, other: int, u: seq<Line>)
    requires Fits(t, s, ms, mapping, other, u)
    ensures SameMoves(ArcsOf(t), s, ArcsOf(u), AsSigma(ms))
  {
    hide Fits, ExpandsTo, Denotes, LetterOK;
    FitsExtends(t, s, ms, mapping, other, u);
    hide Extends;
    forall p, q | Arc(p, EPS, q) in ArcsOf(t) ensures Arc(p, EPS, q) in ArcsOf(u) {
      var a :| 0 <= a < |t| && t[a].target != -1 && LineArc(t[a]) == Arc(p, EPS, q);
      SelfVariant(ms, other, EPS);
      var k := RewrittenForth(t, s, ms, mapping, other, u, a, EPS);
      assert LineArc(u[k]) == Arc(p, EPS, q);
    }
    forall p, xy: Pair, q | Moves(ArcsOf(t), s, p, xy, q) ensures Moves(ArcsOf(u), AsSigma(ms), p, xy, q) {
      var l :| l != EPS && Arc(p, l, q) in ArcsOf(t) && Denotes(s, l, xy.x, xy.y);
      var a :| 0 <= a < |t| && t[a].target != -1 && LineArc(t[a]) == Arc(p, l, q);
      LineLetter(s, t[a]);
      LetterForth(s, ms, mapping, other, l, xy.x, xy.y);
      RenumberedArc(t[a], mapping);
      var l' :| ExpandsTo(ms, other, RenumberLetter(l, mapping), l') && Denotes(AsSigma(ms), l', xy.x, xy.y);
      EpsilonStays(s, ms, mapping, other, l, l');
      var k := RewrittenForth(t, s, ms, mapping, other, u, a, l');
      assert LineArc(u[k]) == Arc(p, l', q);
    }
  }

  lemma MovesBack(t: seq<Line>, s: seq<Sym>, ms: seq<MSym>, mapping: seq<int>, other: int, u: seq<Line>)
    requires Fits(t, s, ms, mapping, other, u)
    ensures SameMoves(ArcsOf(u), AsSigma(ms), ArcsOf(t), s)
  {
    hide Fits, ExpandsTo, Denotes, LetterOK;
    FitsExtends(t, s, ms, mapping, other, u);
    hide Extends;
    forall p, q | Arc(p, EPS, q) in ArcsOf(u) ensures Arc(p, EPS, q) in ArcsOf(t) {
      var k :| 0 <= k < |u| && u[k].target != -1 && LineArc(u[k]) == Arc(p, EPS, q);
      var a := RewrittenBack(t, s, ms, mapping, other, u, k);
      LineLetter(s, t[a]);
      RenumberedArc(t[a], mapping);
      EpsilonStays(s, ms, mapping, other, Letter(t[a].inp, t[a].outp), EPS);
      assert LineArc(t[a]) == Arc(p, EPS, q);
    }
    forall p, xy: Pair, q | Moves(ArcsOf(u), AsSigma(ms), p, xy, q) ensures Moves(ArcsOf(t), s, p, xy, q) {
      var l' :| l' != EPS && Arc(p, l', q) in ArcsOf(u) && Denotes(AsSigma(ms), l', xy.x, xy.y);
      var k :| 0 <= k < |u| && u[k].target != -1 && LineArc(u[k]) == Arc(p, l', q);
      var a := RewrittenBack(t, s, ms, mapping, other, u, k);
      LineLetter(s, t[a]);
      RenumberedArc(t[a], mapping);
      var l := Letter(t[a].inp, t[a].outp);
      LetterBack(s, ms, mapping, other, l, l', xy.x, xy.y);
      EpsilonStays(s, ms, mapping, other, l, l');
      assert LineArc(t[a]) == Arc(p, l, q);
    }
  }

  lemma FitsExtends(t: seq<Line>, s: seq<Sym>, ms: seq<MSym>, mapping: seq<int>, other: int, u: seq<Line>)
    requires Fits(t, s, ms, mapping, other, u)
    ensures Extends(s, ms, mapping, other) && forall i :: 0 <= i < |t| ==> LineInSigma(s, t[i])
  {
  }

  lemma SelfVariant(ms: seq<MSym>, other: int, l: Letter)
    ensures ExpandsTo(ms, other, l, l)
  {
  }

  lemma LineLetter(s: seq<Sym>, l: Line)
    requires LineInSigma(s, l) && l.target != -1
    ensures LetterOK(s, Letter(l.inp, l.outp)) && l.inp >= 0 && l.outp >= 0
  {
  }

  // The open language is kept, and the rest of the table too.
  lemma RewrittenNet(t: seq<Line>, n: nat, s: seq<Sym>, ms: seq<MSym>, mapping: seq<int>, other: int, u: seq<Line>)
    requires Fits(t, s, ms, mapping, other, u) && IsTable(t, n)
    ensures IsTable(u, n) && SameOpen(Meaning(t, n), s, Meaning(u, n), AsSigma(ms))
  {
    RewrittenTable(t, n, s, ms, mapping, other, u);
    RewrittenFlags(t, s, ms, mapping, other, u);
    MovesForth(t, s, ms, mapping, other, u);
    MovesBack(t, s, ms, mapping, other, u);
    hide SameMoves, OpenAccepts, Fits;
    SameOpenLanguage(Meaning(t, n), s, Meaning(u, n), AsSigma(ms));
    SameOpenLanguage(Meaning(u, n), AsSigma(ms), Meaning(t, n), s);
  }

  ghost predicate SameOpen(m: Net, s: seq<Sym>, k: Net, s': seq<Sym>) {
    forall w :: OpenAccepts(m, s, w) <==> OpenAccepts(k, s', w)
  }

  lemma RewrittenTable(t: seq<Line>, n: nat, s: seq<Sym>, ms: seq<MSym>, mapping: seq<int>, other: int, u: seq<Line>)
    requires Fits(t, s, ms, mapping, other, u) && IsTable(t, n)
    ensures IsTable(u, n)
  {
    hide Fits, ExpandsTo, LetterOK;
    FitsExtends(t, s, ms, mapping, other, u);
    hide Extends;
    forall k | 0 <= k < |u| ensures LineOK(u[k], n) && exists a :: 0 <= a < |t|
                                                                   && u[k] == With(t[a], u[k].inp, u[k].outp) {
      var a := RewrittenBack(t, s, ms, mapping, other, u, k);
      assert LineOK(t[a], n);
      VariantOK(s, t[a], n, ms, mapping, other, u[k]);
    }
    forall q | 0 <= q < n ensures HasLine(u, q) {
      assert HasLine(t, q);
      var a :| 0 <= a < |t| && t[a].state == q;
      SelfVariant(ms, other, LetterOf(RenumberLine(t[a], mapping)));
      var k := RewrittenForth(t, s, ms, mapping, other, u, a, LetterOf(RenumberLine(t[a], mapping)));
    }
  }

  lemma VariantOK(s: seq<Sym>, l: Line, n: nat, ms: seq<MSym>, mapping: seq<int>, other: int, o: Line)
    requires Extends(s, ms, mapping, other) && LineInSigma(s, l) && LineOK(l, n) && IsVariant(o, l, mapping, ms, other)
    ensures LineOK(o, n)
  {
    if l.target != -1 {
      LineLetter(s, l);
      RenumberedArc(l, mapping);
      EpsilonStays(s, ms, mapping, other, Letter(l.inp, l.outp), LetterOf(o));
    }
  }

  lemma RewrittenFlags(t: seq<Line>, s: seq<Sym>, ms: seq<MSym>, mapping: seq<int>, other: int, u: seq<Line>)
    requires Fits(t, s, ms, mapping, other, u)
    ensures FinalsOf(u) == FinalsOf(t) && StartsOf(u) == StartsOf(t)
  {
    hide Fits, ExpandsTo, LineInSigma;
    forall q | q in FinalsOf(u) ensures q in FinalsOf(t) {
      var k :| 0 <= k < |u| && u[k].final && u[k].state == q;
      var a := RewrittenBack(t, s, ms, mapping, other, u, k);
      assert t[a].final && t[a].state == q;
    }
    forall q | q in StartsOf(u) ensures q in StartsOf(t) {
      var k :| 0 <= k < |u| && u[k].start && u[k].state == q;
      var a := RewrittenBack(t, s, ms, mapping, other, u, k);
      assert t[a].start && t[a].state == q;
    }
    forall a | 0 <= a < |t| ensures exists k :: 0 <= k < |u| && u[k].state == t[a].state && u[k].final == t[a].final
                                                && u[k].start == t[a].start {
      SelfVariant(ms, other, LetterOf(RenumberLine(t[a], mapping)));
      var k := RewrittenForth(t, s, ms, mapping, other, u, a, LetterOf(RenumberLine(t[a], mapping)));
    }
  }

  // ---- fsm_merge_sigma ----

  // Arc numbers above 2 are replaced in place.
  method RenumberArcs(fsm: array<Line>, mapping: seq<int>, ghost t: seq<Line>, ghost n: nat) returns (count: nat)
    requires IsTable(t, n) && fsm.Length > |t| && fsm[..|t|] == t && fsm[|t|].state == -1
    requires forall i :: 0 <= i < |t| ==> t[i].inp < |mapping| && t[i].outp < |mapping|
    modifies fsm
    ensures count == |t| && fsm[count].state == -1 && fsm[..count] == Renumbered(t, mapping)
  {
    TableLines(t, n);
    hide IsTable;
    count := 0;
    while fsm[count].state != -1
      invariant count <= |t| && fsm[|t|].state == -1
      invariant forall k :: 0 <= k < |t| ==> fsm[k] == if k < count then RenumberLine(t[k], mapping) else t[k]
      decreases |t| - count
    {
      if fsm[count].inp > IDENTITY {
        fsm[count] := fsm[count].(inp := mapping[fsm[count].inp]);
      }
      if fsm[count].outp > IDENTITY {
        fsm[count] := fsm[count].(outp := mapping[fsm[count].outp]);
      }
      count := count + 1;
    }
  }

  ghost function Renumbered(t: seq<Line>, mapping: seq<int>): (r: seq<Line>)
    ensures |r| == |t| && forall k :: 0 <= k < |t| ==> r[k] == RenumberLine(t[k], mapping)
  {
    seq(|t|, k requires 0 <= k < |t| => RenumberLine(t[k], mapping))
  }

  // Nothing to expand: the alphabet has no ? and no @, or no new symbols came.
  ghost predicate Closed2(t: seq<Line>, ms: seq<MSym>, other: int) {
    (forall c :: !IsNew(ms, other, c)) || forall i :: 0 <= i < |t| ==> t[i].inp != UNKNOWN && t[i].inp != IDENTITY
                                                                       && t[i].outp != UNKNOWN
  }

  lemma ExpandedRewritten(u: seq<Line>, t: seq<Line>, mapping: seq<int>, ms: seq<MSym>, other: int)
    requires ExpandedTo(u, Renumbered(t, mapping), |t|, ms, other)
    ensures Rewritten(u, t, mapping, ms, other)
  {
    hide ExpandsTo;
    var r := Renumbered(t, mapping);
    forall k | 0 <= k < |u| ensures FromLine(u[k], t, mapping, ms, other) {
      assert VariantOf(u[k], r, |t|, ms, other);
      var a :| 0 <= a < |t| && u[k] == With(r[a], u[k].inp, u[k].outp)
               && ExpandsTo(ms, other, LetterOf(r[a]), LetterOf(u[k]));
      assert IsVariant(u[k], t[a], mapping, ms, other);
    }
    forall a, l' | 0 <= a < |t| && ExpandsTo(ms, other, LetterOf(RenumberLine(t[a], mapping)), l')
      ensures With(t[a], l'.inp, l'.outp) in u {
      assert With(r[a], l'.inp, l'.outp) in u && With(r[a], l'.inp, l'.outp) == With(t[a], l'.inp, l'.outp);
    }
  }

  lemma RenumberedRewritten(t: seq<Line>, s: seq<Sym>, mapping: seq<int>, ms: seq<MSym>, other: int)
    requires Extends(s, ms, mapping, other) && (forall i :: 0 <= i < |t| ==> LineInSigma(s, t[i]))
             && Closed2(t, ms, other)
    ensures Rewritten(Renumbered(t, mapping), t, mapping, ms, other)
  {
    var r := Renumbered(t, mapping);
    forall k | 0 <= k < |r| ensures FromLine(r[k], t, mapping, ms, other) {
      SelfVariant(ms, other, LetterOf(r[k]));
      assert IsVariant(r[k], t[k], mapping, ms, other);
    }
    forall a, l' | 0 <= a < |t| && ExpandsTo(ms, other, LetterOf(r[a]), l') ensures With(t[a], l'.inp, l'.outp) in r {
      OnlyItself(s, t, mapping, ms, other, a, l');
      assert With(t[a], l'.inp, l'.outp) == r[a];
    }
  }

  lemma OnlyItself(s: seq<Sym>, t: seq<Line>, mapping: seq<int>, ms: seq<MSym>, other: int, a: nat, l': Letter)
    requires Extends(s, ms, mapping, other) && a < |t| && LineInSigma(s, t[a]) && Closed2(t, ms, other)
    requires ExpandsTo(ms, other, LetterOf(RenumberLine(t[a], mapping)), l')
    ensures l' == LetterOf(RenumberLine(t[a], mapping))
  {
    if t[a].target != -1 {
      LineLetter(s, t[a]);
      StandsOn(s, ms, mapping, other, t[a].inp, None);
      StandsOn(s, ms, mapping, other, t[a].outp, None);
    }
  }

  // A new symbol is an ordinary one of the other alphabet.
  lemma NewComesFrom(g: Merge, s1: seq<Sym>, s2: seq<Sym>, o: seq<Sym>, other: int, c: int)
    requires Merging(g, s1, |s1|, s2, |s2|) && IsNew(g.ms, other, c)
             && ((o == s2 && other == 2) || (o == s1 && other == 1))
    ensures !g.equal && exists b :: 0 <= b < |o| && o[b].number > IDENTITY
  {
    hide Mapped, Dense, KeyLess;
    var k :| 0 <= k < |g.ms| && NewAt(g.ms, other, k) && g.ms[k].number == c;
    assert PresenceOK(g.ms[k], s1, s2);
    var b :| 0 <= b < |o| && SymKey(o[b]) == MKey(g.ms[k]);
  }

  // Where nothing is expanded, there is nothing to expand.
  lemma NotNeeded(g: Merge, s1: seq<Sym>, s2: seq<Sym>, t: seq<Line>, s: seq<Sym>, other: int)
    requires Merging(g, s1, |s1|, s2, |s2|) && forall i :: 0 <= i < |t| ==> LineInSigma(s, t[i])
    requires (s == s1 && other == 2 && (g.equal || !g.unknown1)) || (s == s2 && other == 1 && (g.equal || !g.unknown2))
    ensures Closed2(t, g.ms, other)
  {
    hide Mapped, Dense, KeyLess;
    var o := if other == 2 then s2 else s1;
    if g.equal || forall b :: 0 <= b < |o| ==> o[b].number <= IDENTITY {
      forall c ensures !IsNew(g.ms, other, c) {
        if IsNew(g.ms, other, c) {
          NewComesFrom(g, s1, s2, o, other, c);
        }
      }
    } else {
      forall i | 0 <= i < |t| ensures t[i].inp != UNKNOWN && t[i].inp != IDENTITY && t[i].outp != UNKNOWN {
        NoUnknowns(s, t[i]);
      }
    }
  }

  lemma NoUnknowns(s: seq<Sym>, l: Line)
    requires LineInSigma(s, l) && forall a :: 0 <= a < |s| ==> s[a].number != UNKNOWN && s[a].number != IDENTITY
    ensures l.inp != UNKNOWN && l.inp != IDENTITY && l.outp != UNKNOWN
  {
  }

  // The lines to expand are as they should be.
  lemma SigmaLines(g: Merge, s1: seq<Sym>, s2: seq<Sym>, s: seq<Sym>, t: seq<Line>, mapping: seq<int>, other: int)
    requires Merging(g, s1, |s1|, s2, |s2|) && (s == s1 || s == s2) && Extends(s, g.ms, mapping, other)
    requires forall i :: 0 <= i < |t| ==> LineInSigma(s, t[i])
    ensures forall i :: 0 <= i < |t| ==> SigmaLine(g.ms, RenumberLine(t[i], mapping))
  {
    hide Mapped, Dense, KeyLess;
    forall i | 0 <= i < |t| ensures SigmaLine(g.ms, RenumberLine(t[i], mapping)) {
      if t[i].target != -1 {
        LineLetter(s, t[i]);
        StandsOn(s, g.ms, mapping, other, t[i].inp, None);
        StandsOn(s, g.ms, mapping, other, t[i].outp, None);
        UnknownKept(g, s1, s2, s);
        hide Merging, Extends, Stands;
      }
    }
  }

  lemma UnknownKept(g: Merge, s1: seq<Sym>, s2: seq<Sym>, s: seq<Sym>)
    requires Merging(g, s1, |s1|, s2, |s2|) && (s == s1 || s == s2)
    ensures HasNumber(s, UNKNOWN) ==> HasUnknown(g.ms)
  {
    hide Mapped, Dense, KeyLess;
    if HasNumber(s, UNKNOWN) {
      var a :| 0 <= a < |s| && s[a].number == UNKNOWN;
      assert HasMKey(g.ms, SymKey(s[a]));
      var k :| 0 <= k < |g.ms| && MKey(g.ms[k]) == Special(UNKNOWN);
    }
  }

  lemma NumbersFit(s: seq<Sym>, t: seq<Line>, size: int)
    requires (forall i :: 0 <= i < |t| ==> LineInSigma(s, t[i])) && size > 0
             && forall a :: 0 <= a < |s| ==> s[a].number < size
    ensures forall i :: 0 <= i < |t| ==> t[i].inp < size && t[i].outp < size
  {
    forall i | 0 <= i < |t| ensures t[i].inp < size && t[i].outp < size {
      assert LineInSigma(s, t[i]);
    }
  }

  // ---- Nets stay nets, and deterministic ones deterministic ----

  // u has the variants of the renumbered lines of t in order, none of them twice.
  ghost predicate Unrolled(u: seq<Line>, t: seq<Line>, from: seq<nat>, mapping: seq<int>, ms: seq<MSym>, other: int) {
    && |from| == |u| && (forall a :: 0 <= a < |t| ==> a in from)
    && (forall k :: 0 <= k < |u| ==> from[k] < |t| && IsVariant(u[k], t[from[k]], mapping, ms, other))
    && (forall j, k :: 0 <= j < k < |u| ==> from[j] <= from[k]
                                            && (from[j] == from[k] ==> t[from[k]].inp != -1 && u[j] != u[k]))
  }

  lemma UnfoldsUnrolled(u: seq<Line>, t: seq<Line>, mapping: seq<int>, from: seq<nat>, ms: seq<MSym>, other: int)
    requires Unfolds(u, Renumbered(t, mapping), from, ms, other) && forall a :: 0 <= a < |t| ==> a in from
    ensures Unrolled(u, t, from, mapping, ms, other)
  {
    hide ExpandsTo;
    var r := Renumbered(t, mapping);
    forall k | 0 <= k < |u| ensures IsVariant(u[k], t[from[k]], mapping, ms, other) {
      assert VariantAs(u[k], r[from[k]], ms, other);
    }
  }

  lemma RenumberedUnrolled(t: seq<Line>, mapping: seq<int>, ms: seq<MSym>, other: int) returns (from: seq<nat>)
    ensures Unrolled(Renumbered(t, mapping), t, from, mapping, ms, other)
  {
    from := seq(|t|, i requires 0 <= i < |t| => i);
    forall a | 0 <= a < |t| ensures a in from && IsVariant(RenumberLine(t[a], mapping), t[a], mapping, ms, other) {
      assert from[a] == a;
      SelfVariant(ms, other, LetterOf(RenumberLine(t[a], mapping)));
    }
  }

  lemma UnrolledNet(t: seq<Line>, n: nat, u: seq<Line>, from: seq<nat>, mapping: seq<int>, ms: seq<MSym>, other: int)
    requires Pointers.IsNet(t, n) && IsTable(u, n) && Unrolled(u, t, from, mapping, ms, other)
    ensures Pointers.IsNet(u, n)
  {
    hide ExpandsTo;
    forall i, j | 0 <= i < |u| && 0 <= j < |u| && u[i].state == u[j].state && u[i].target == -1 ensures i == j {
      assert LineOK(t[from[i]], n) && u[i] == With(t[from[i]], u[i].inp, u[i].outp);
      assert u[j] == With(t[from[j]], u[j].inp, u[j].outp);
      assert from[i] == from[j];
    }
    forall i, j, k | 0 <= i < j < k < |u| && u[i].state == u[k].state ensures u[j].state == u[i].state {
      assert from[i] <= from[j] <= from[k];
    }
  }

  // Rows begin where they began.
  lemma RowUnrolled(t: seq<Line>, u: seq<Line>, from: seq<nat>, mapping: seq<int>, ms: seq<MSym>, other: int, i: nat)
    requires Unrolled(u, t, from, mapping, ms, other) && i < |u| && Order.RowBegins(u, i)
    ensures from[i] < |t| && u[i].state == t[from[i]].state && Order.RowBegins(t, from[i])
  {
    hide ExpandsTo;
    assert u[i] == With(t[from[i]], u[i].inp, u[i].outp);
    if from[i] > 0 {
      var k := Place(from, from[i] - 1);
      assert k < i;
      assert u[i - 1] == With(t[from[i - 1]], u[i - 1].inp, u[i - 1].outp);
      assert from[k] <= from[i - 1] <= from[i];
    }
  }

  lemma Place(from: seq<nat>, a: nat) returns (k: nat)
    requires a in from
    ensures k < |from| && from[k] == a
  {
    hide ExpandsTo;
    k :| 0 <= k < |from| && from[k] == a;
  }

  lemma KnownUnrolled(t: seq<Line>, u: seq<Line>, from: seq<nat>, mapping: seq<int>, ms: seq<MSym>, other: int, i: nat,
                      d: int)
    requires Unrolled(u, t, from, mapping, ms, other) && i < |u| && Order.Known(t, from[i], d)
    ensures Order.Known(u, i, d)
  {
    hide ExpandsTo;
    var r := from[i];
    var a :| 0 <= a < r && (t[a].state == d || (t[a].target == d && Order.Companion(t, r, a)));
    var k := Place(from, a);
    assert k < i && u[k] == With(t[a], u[k].inp, u[k].outp);
    if t[a].state != d {
      var b :| 0 <= b < r && b != a && t[b].state == t[a].state;
      var m := Place(from, b);
      assert m < i && m != k && u[m] == With(t[b], u[m].inp, u[m].outp);
      assert Order.Companion(u, i, k);
    }
  }

  lemma SmallerKnown(t: seq<Line>, a: nat, d: int)
    requires Order.InOrder(t) && a < |t| && Order.RowBegins(t, a) && 0 < d < t[a].state
    ensures Order.Known(t, a, d)
  {
    hide ExpandsTo;
  }

  lemma RowsKept(t: seq<Line>, u: seq<Line>, from: seq<nat>, mapping: seq<int>, ms: seq<MSym>, other: int)
    requires Unrolled(u, t, from, mapping, ms, other) && Order.InOrder(t)
    ensures Order.InOrder(u)
  {
    hide ExpandsTo;
    hide Order.Known, Order.RowBegins;
    forall i, d | 0 <= i < |u| && Order.RowBegins(u, i) && 0 < d < u[i].state ensures Order.Known(u, i, d) {
      RowUnrolled(t, u, from, mapping, ms, other, i);
      SmallerKnown(t, from[i], d);
      KnownUnrolled(t, u, from, mapping, ms, other, i, d);
    }
  }

  // Different numbers stay different, and are none of the new ones.
  lemma NumbersApart(s: seq<Sym>, ms: seq<MSym>, mapping: seq<int>, other: int, n: int, m: int)
    requires Extends(s, ms, mapping, other) && n >= 0 && m >= 0
    requires (n != EPSILON ==> HasNumber(s, n)) && (m != EPSILON ==> HasNumber(s, m))
    ensures Renumber(n, mapping) == Renumber(m, mapping) ==> n == m
    ensures n > IDENTITY <==> Renumber(n, mapping) > IDENTITY
    ensures !IsNew(ms, other, Renumber(n, mapping))
  {
    NumberNamed(s, ms, mapping, other, n);
    NumberNamed(s, ms, mapping, other, m);
    if n > IDENTITY && m > IDENTITY && Renumber(n, mapping) == Renumber(m, mapping) {
      var x :| Named(s, n, x) && Named(AsSigma(ms), mapping[n], x);
      var y :| Named(s, m, y) && Named(AsSigma(ms), mapping[m], y);
      NamedOnce(AsSigma(ms), mapping[n], mapping[m], x, y);
      NamedOnce(s, n, m, x, y);
    }
  }

  lemma NumberNamed(s: seq<Sym>, ms: seq<MSym>, mapping: seq<int>, other: int, n: int)
    requires Extends(s, ms, mapping, other) && n >= 0 && (n != EPSILON ==> HasNumber(s, n))
    ensures if n > IDENTITY then n < |mapping| && exists x :: Named(s, n, x) && Named(AsSigma(ms), mapping[n], x)
                                                              else Renumber(n, mapping) == n
    ensures !IsNew(ms, other, Renumber(n, mapping))
    ensures n > IDENTITY ==> Renumber(n, mapping) > IDENTITY
  {
    if n > IDENTITY {
      var a :| 0 <= a < |s| && s[a].number == n;
      assert Named(s, n, s[a].symbol) && Known(s, s[a].symbol);
    } else if IsNew(ms, other, n) {
      NewAbove(ms, other, n);
    }
  }

  // A letter comes from one letter only.
  lemma OneOrigin(s: seq<Sym>, ms: seq<MSym>, mapping: seq<int>, other: int, l: Letter, m: Letter, l': Letter)
    requires Extends(s, ms, mapping, other) && LetterOK(s, l) && LetterOK(s, m)
    requires ExpandsTo(ms, other, RenumberLetter(l, mapping), l')
             && ExpandsTo(ms, other, RenumberLetter(m, mapping), l')
    ensures l == m
  {
    NumbersApart(s, ms, mapping, other, l.inp, m.inp);
    NumbersApart(s, ms, mapping, other, l.outp, m.outp);
    NumbersApart(s, ms, mapping, other, m.inp, l.inp);
    NumbersApart(s, ms, mapping, other, m.outp, l.outp);
    hide Extends, IsNew, HasNumber;
  }

  lemma DeterministicKept(t: seq<Line>, n: nat, s: seq<Sym>, ms: seq<MSym>, mapping: seq<int>, other: int, u: seq<Line>)
    requires Fits(t, s, ms, mapping, other, u) && IsTable(u, n) && Deterministic(Meaning(t, n))
    ensures Deterministic(Meaning(u, n))
  {
    hide IsTable, Fits, ExpandsTo, Denotes, LetterOK;
    FitsExtends(t, s, ms, mapping, other, u);
    RewrittenFlags(t, s, ms, mapping, other, u);
    hide Extends;
    TableIsClosed(u, n);
    forall a, b | a in ArcsOf(u) && b in ArcsOf(u) && a.src == b.src && a.letter == b.letter
      ensures a.dst == b.dst && a.letter != EPS {
      var c := ArcOrigin(t, s, ms, mapping, other, u, a);
      var d := ArcOrigin(t, s, ms, mapping, other, u, b);
      OneOrigin(s, ms, mapping, other, c.letter, d.letter, a.letter);
      EpsilonStays(s, ms, mapping, other, c.letter, a.letter);
    }
  }

  lemma ArcOrigin(t: seq<Line>, s: seq<Sym>, ms: seq<MSym>, mapping: seq<int>, other: int, u: seq<Line>, a: Arc)
    returns (c: Arc)
    requires Fits(t, s, ms, mapping, other, u) && a in ArcsOf(u)
    ensures c in ArcsOf(t) && c.src == a.src && c.dst == a.dst && LetterOK(s, c.letter)
    ensures ExpandsTo(ms, other, RenumberLetter(c.letter, mapping), a.letter)
  {
    hide Fits, ExpandsTo, LetterOK;
    var k :| 0 <= k < |u| && u[k].target != -1 && LineArc(u[k]) == a;
    var i := RewrittenBack(t, s, ms, mapping, other, u, k);
    LineLetter(s, t[i]);
    RenumberedArc(t[i], mapping);
    c := LineArc(t[i]);
  }

  lemma DistinctKept(t: seq<Line>, n: nat, s: seq<Sym>, ms: seq<MSym>, mapping: seq<int>, other: int, u: seq<Line>,
                     from: seq<nat>)
    requires Extends(s, ms, mapping, other) && (forall i :: 0 <= i < |t| ==> LineInSigma(s, t[i]))
             && Pointers.DistinctLines(t)
    requires Unrolled(u, t, from, mapping, ms, other)
    ensures Pointers.DistinctLines(u)
  {
    hide Extends, ExpandsTo, LineInSigma;
    forall i, j | 0 <= i < j < |u| && u[i].target != -1 && u[j].target != -1 ensures LineArc(u[i]) != LineArc(u[j]) {
      var a, b := t[from[i]], t[from[j]];
      assert IsVariant(u[i], a, mapping, ms, other) && IsVariant(u[j], b, mapping, ms, other);
      if LineArc(u[i]) == LineArc(u[j]) {
        LineLetter(s, a);
        LineLetter(s, b);
        RenumberedArc(a, mapping);
        RenumberedArc(b, mapping);
        OneOrigin(s, ms, mapping, other, Letter(a.inp, a.outp), Letter(b.inp, b.outp), LetterOf(u[i]));
      }
    }
  }

  // What the products ask of a net is kept.
  ghost predicate Kept(t: seq<Line>, n: nat, u: seq<Line>) {
    && (Pointers.IsNet(t, n) ==> Pointers.IsNet(u, n)) && (Order.InOrder(t) ==> Order.InOrder(u))
    && (Pointers.DistinctLines(t) ==> Pointers.DistinctLines(u)) && StartsOf(u) == StartsOf(t)
       && FinalsOf(u) == FinalsOf(t)
    && (Deterministic(Meaning(t, n)) ==> Deterministic(Meaning(u, n)))
  }

  lemma AllKept(t: seq<Line>, n: nat, s: seq<Sym>, ms: seq<MSym>, mapping: seq<int>, other: int, u: seq<Line>,
                from: seq<nat>)
    requires Fits(t, s, ms, mapping, other, u) && IsTable(u, n) && Unrolled(u, t, from, mapping, ms, other)
    ensures Kept(t, n, u)
  {
    FitsExtends(t, s, ms, mapping, other, u);
    RewrittenFlags(t, s, ms, mapping, other, u);
    hide Fits, Unrolled, IsTable, Pointers.IsNet, Pointers.DistinctLines, Order.InOrder, Deterministic, Extends,
         LineInSigma;
    if Pointers.IsNet(t, n) {
      UnrolledNet(t, n, u, from, mapping, ms, other);
    }
    if Order.InOrder(t) {
      RowsKept(t, u, from, mapping, ms, other);
    }
    if Pointers.DistinctLines(t) {
      DistinctKept(t, n, s, ms, mapping, other, u, from);
    }
    if Deterministic(Meaning(t, n)) {
      DeterministicKept(t, n, s, ms, mapping, other, u);
    }
  }

  // ---- The letters are those of the new alphabet ----

  lemma NumberMerged(ms: seq<MSym>, s1: seq<Sym>, s2: seq<Sym>, s: seq<Sym>, mapping: seq<int>, other: int, n: int)
    requires Merged(ms, s1, |s1|, s2, |s2|) && (s == s1 || s == s2) && Extends(s, ms, mapping, other)
    requires n == EPSILON || (n >= 0 && HasNumber(s, n))
    ensures Renumber(n, mapping) == EPSILON || HasNumber(AsSigma(ms), Renumber(n, mapping))
    ensures n > IDENTITY <==> Renumber(n, mapping) > IDENTITY
    ensures n <= IDENTITY ==> Renumber(n, mapping) == n
  {
    hide Less, Dense, KeyLess, PresenceOK;
    if n != EPSILON {
      var a :| 0 <= a < |s| && s[a].number == n;
      assert HasMKey(ms, SymKey(s[a]));
      if n > IDENTITY {
        assert Named(s, n, s[a].symbol);
        assert Named(AsSigma(ms), mapping[n], s[a].symbol);
      } else {
        var k :| 0 <= k < |ms| && MKey(ms[k]) == SymKey(s[a]);
        assert AsSigma(ms)[k].number == n;
      }
    }
  }

  lemma NewNumber(ms: seq<MSym>, other: int, c: int)
    requires IsNew(ms, other, c)
    ensures c > IDENTITY && HasNumber(AsSigma(ms), c)
  {
    var k :| 0 <= k < |ms| && NewAt(ms, other, k) && ms[k].number == c;
    assert AsSigma(ms)[k].number == c;
  }

  lemma LetterMerged(ms: seq<MSym>, s1: seq<Sym>, s2: seq<Sym>, s: seq<Sym>, mapping: seq<int>, other: int, l: Letter,
                     l': Letter)
    requires Merged(ms, s1, |s1|, s2, |s2|) && (s == s1 || s == s2) && Extends(s, ms, mapping, other)
    requires LetterOK(s, l) && ExpandsTo(ms, other, RenumberLetter(l, mapping), l')
    ensures LetterOK(AsSigma(ms), l')
  {
    NumberMerged(ms, s1, s2, s, mapping, other, l.inp);
    NumberMerged(ms, s1, s2, s, mapping, other, l.outp);
    hide Merged, Extends, HasNumber, IsNew;
    if IsNew(ms, other, l'.inp) {
      NewNumber(ms, other, l'.inp);
    }
    if IsNew(ms, other, l'.outp) {
      NewNumber(ms, other, l'.outp);
    }
  }

  lemma LinesMerged(t: seq<Line>, s: seq<Sym>, ms: seq<MSym>, mapping: seq<int>, other: int, u: seq<Line>,
                    s1: seq<Sym>, s2: seq<Sym>)
    requires Fits(t, s, ms, mapping, other, u) && Merged(ms, s1, |s1|, s2, |s2|) && (s == s1 || s == s2)
    ensures forall k :: 0 <= k < |u| ==> LineInSigma(AsSigma(ms), u[k])
  {
    hide Fits, Merged, LetterOK;
    FitsExtends(t, s, ms, mapping, other, u);
    hide Extends;
    forall k | 0 <= k < |u| ensures LineInSigma(AsSigma(ms), u[k]) {
      var a := RewrittenBack(t, s, ms, mapping, other, u, k);
      if t[a].target != -1 {
        LineLetter(s, t[a]);
        RenumberedArc(t[a], mapping);
        LetterMerged(ms, s1, s2, s, mapping, other, Letter(t[a].inp, t[a].outp), LetterOf(u[k]));
      }
    }
  }

  // What a net must be to be merged: a table over its sorted alphabet.
  ghost predicate NetOver(fsm: array<Line>, t: seq<Line>, n: nat, s: seq<Sym>)
    reads fsm
  {
    && IsTable(t, n) && SigmaOK(s) && (forall i :: 0 <= i < |t| ==> LineInSigma(s, t[i]))
    && fsm.Length > |t| && fsm[..|t|] == t && fsm[|t|].state == -1
  }

  // The mappings have room for the numbers, and a special number has one name.
  ghost predicate Mergeable(s1: seq<Sym>, s2: seq<Sym>) {
    && (forall a :: 0 <= a < |s1| ==> s1[a].number < Room(s1, s2))
    && (forall b :: 0 <= b < |s2| ==> s2[b].number < Room(s1, s2))
    && (forall a, b :: 0 <= a < |s1| && 0 <= b < |s2| && s1[a].number == s2[b].number <= IDENTITY ==>
          s1[a].symbol == s2[b].symbol)
  }

  // One of the two nets: renumbered, and expanded if need be.
  method Rewrite(fsm: array<Line>, mapping: seq<int>, g: Merge, expand: bool, other: int, ghost t: seq<Line>,
                 ghost n: nat, ghost s: seq<Sym>, ghost s1: seq<Sym>, ghost s2: seq<Sym>)
    returns (out: array<Line>, lines: nat)
    requires NetOver(fsm, t, n, s) && Merging(g, s1, |s1|, s2, |s2|) && Extends(s, g.ms, mapping, other)
             && (forall a :: 0 <= a < |s| ==> s[a].number < |mapping|) && |mapping| > 0
    requires (s == s1 && other == 2 && expand == (g.unknown1 && !g.equal))
             || (s == s2 && other == 1 && expand == (g.unknown2 && !g.equal))
    modifies fsm
    ensures (out == fsm || fresh(out)) && lines < out.Length && out[lines].state == -1
    ensures IsTable(out[..lines], n) && SameOpen(Meaning(t, n), s, Meaning(out[..lines], n), AsSigma(g.ms))
    ensures Kept(t, n, out[..lines]) && forall i :: 0 <= i < lines ==> LineInSigma(AsSigma(g.ms), out[i])
  {
    hide IsTable, SigmaOK, LineInSigma, Extends, Merged, Mapped, Noticed, SigmaLine, SameOpen, ExpandedTo, Rewritten,
         Unfolds, Unrolled, Kept;
    ghost var from;
    NumbersFit(s, t, |mapping|);
    lines := RenumberArcs(fsm, mapping, t, n);
    out := fsm;
    if expand {
      SigmaLines(g, s1, s2, s, t, mapping, other);
      MergedDense(g.ms, s1, |s1|, s2, |s2|);
      out, lines, from := Expand(fsm[..lines], g.ms, other);
      UnfoldsUnrolled(out[..lines], t, mapping, from, g.ms, other);
      ExpandedRewritten(out[..lines], t, mapping, g.ms, other);
    } else {
      NotNeeded(g, s1, s2, t, s, other);
      RenumberedRewritten(t, s, mapping, g.ms, other);
      from := RenumberedUnrolled(t, mapping, g.ms, other);
    }
    RewrittenNet(t, n, s, g.ms, mapping, other, out[..lines]);
    AllKept(t, n, s, g.ms, mapping, other, out[..lines], from);
    LinesMerged(t, s, g.ms, mapping, other, out[..lines], s1, s2);
    forall i | 0 <= i < lines ensures LineInSigma(AsSigma(g.ms), out[i]) {
      assert out[..lines][i] == out[i];
    }
  }

  method FsmMergeSigma(fsm1: array<Line>, s1: seq<Sym>, fsm2: array<Line>, s2: seq<Sym>, ghost t1: seq<Line>,
                       ghost n1: nat, ghost t2: seq<Line>, ghost n2: nat)
    returns (sigma: seq<Sym>, out1: array<Line>, lines1: nat, out2: array<Line>, lines2: nat)
    requires fsm1 != fsm2 && NetOver(fsm1, t1, n1, s1) && NetOver(fsm2, t2, n2, s2)
    requires Mergeable(s1, s2)
    modifies fsm1, fsm2
    ensures SigmaOK(sigma) && (forall x :: Known(sigma, x) <==> Known(s1, x) || Known(s2, x)) && NoGaps(sigma)
    ensures lines1 < out1.Length && IsTable(out1[..lines1], n1)
            && SameOpen(Meaning(t1, n1), s1, Meaning(out1[..lines1], n1), sigma)
    ensures lines2 < out2.Length && IsTable(out2[..lines2], n2)
            && SameOpen(Meaning(t2, n2), s2, Meaning(out2[..lines2], n2), sigma)
    ensures Kept(t1, n1, out1[..lines1]) && Kept(t2, n2, out2[..lines2])
    ensures forall i :: 0 <= i < lines1 ==> LineInSigma(sigma, out1[i])
    ensures forall i :: 0 <= i < lines2 ==> LineInSigma(sigma, out2[i])
  {
    hide IsTable, SigmaOK, LineInSigma, Extends, SameOpen, Merged, Mapped, Noticed, Known, Kept;
    var g := MergeSigmas(s1, s2);
    FirstExtends(g, s1, s2);
    MergedSigma(g.ms, s1, s2);
    MergedDense(g.ms, s1, |s1|, s2, |s2|);
    MappedRoom(g, s1, s2);
    sigma := AsSigma(g.ms);
    out1, lines1 := Rewrite(fsm1, g.mapping1, g, g.unknown1 && !g.equal, 2, t1, n1, s1, s1, s2);
    ghost var u := out1[..lines1];
    out2, lines2 := Rewrite(fsm2, g.mapping2, g, g.unknown2 && !g.equal, 1, t2, n2, s2, s1, s2);
    assert out1[..lines1] == u;
    assert forall i :: 0 <= i < lines1 ==> out1[i] == u[i];
  }

  // Above @ the numbers run without a gap.
  ghost predicate NoGaps(s: seq<Sym>) {
    forall b :: 0 <= b < |s| && s[b].number > IDENTITY ==>
                  s[b].number == if b == 0 then IDENTITY + 1 else Successor(s[b - 1].number)
  }

  lemma MappedRoom(g: Merge, s1: seq<Sym>, s2: seq<Sym>)
    requires Merging(g, s1, |s1|, s2, |s2|)
    ensures (forall a :: 0 <= a < |s1| ==> s1[a].number < |g.mapping1|)
            && forall b :: 0 <= b < |s2| ==> s2[b].number < |g.mapping2|
  {
  }
}
