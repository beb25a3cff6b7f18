// When the static filters of flags.c and the run-time check of apply.c agree.

module FlagAgreement {
  import opened Options
  import opened Flags

  ghost predicate Over(s: seq<Symbol>, flags: seq<Flag>) {
    forall k :: 0 <= k < |s| && s[k].Diacritic? ==> s[k].flag in flags
  }

  ghost predicate Cleared(list: map<string, Entry>, flags: seq<Flag>) {
    (forall k :: 0 <= k < |flags| ==> flags[k].name in list) && forall a :: a in list ==> list[a] == CLEARED
  }

  predicate AllWellFormed(flags: seq<Flag>) {
    forall f :: f in flags ==> WellFormed(f)
  }

  // ---- The condition, on the flags of the net ----

  // Gives the attribute a value.
  predicate Gives(f: Flag, name: string) {
    f.name == name && (f.typ.Unify? || f.typ.Positive? || f.typ.Negative?)
  }

  // Bears on the R flags of the attribute.
  predicate Settles(f: Flag, name: string) {
    Gives(f, name) || (f.name == name && f.typ.Clear?)
  }

  // An R flag whose attribute no flag settles gets no filter.
  predicate RequiresSettled(flags: seq<Flag>) {
    forall f :: f in flags && f.typ.Require? ==> exists g :: g in flags && Settles(g, f.name)
  }

  // No unification can succeed on a negative value after something that its
  // filter holds against it for good.
  predicate NothingRevived(flags: seq<Flag>) {
    forall u, n, g :: u in flags && n in flags && g in flags ==> !Revives(u, n, g)
  }

  predicate Revives(u: Flag, n: Flag, g: Flag) {
    u.typ.Unify? && n.typ.Negative? && n.name == u.name && n.value != u.value && FlagBuild(u, g) == FAIL
  }

  // No unification can replace a negative value that a D flag is held to.
  predicate NothingReplaced(flags: seq<Flag>) {
    forall d, n, u :: d in flags && n in flags && u in flags ==> !Replaces(d, n, u)
  }

  predicate Replaces(d: Flag, n: Flag, u: Flag) {
    && d.typ.Disallow? && n.typ.Negative? && u.typ.Unify? && d.name == n.name == u.name
    && d.value.Some? && d.value != n.value && n.value != u.value && u.value != d.value
  }

  // E flags, which get no filter, compare attributes that never have a value,
  // or one with itself.
  predicate EqualsIdle(flags: seq<Flag>) {
    forall f, g :: f in flags && g in flags ==> !Compares(f, g)
  }

  predicate Compares(f: Flag, g: Flag) {
    && f.typ.Equal? && f.value != Some(f.name)
    && (Gives(g, f.name) || (f.value.Some? && Gives(g, f.value.value)))
  }

  predicate Agreeable(flags: seq<Flag>) {
    RequiresSettled(flags) && NothingRevived(flags) && NothingReplaced(flags) && EqualsIdle(flags)
  }

  // ---- What the filter of a flag has seen last ----

  // The status of the last symbol before j that has one for f.
  ghost function Verdict(s: seq<Symbol>, f: Flag, j: nat): Status
    requires j <= |s|
    decreases j
  {
    if j == 0 then NONE
    else if s[j - 1].Diacritic? && FlagBuild(f, s[j - 1].flag) != NONE then FlagBuild(f, s[j - 1].flag)
    else Verdict(s, f, j - 1)
  }

  predicate Blocks(f: Flag, v: Status) {
    v == FAIL || (f.typ.Require? && v == NONE)
  }

  ghost predicate FailsBefore(flags: seq<Flag>, f: Flag, s: seq<Symbol>, j: nat)
    requires j <= |s|
  {
    exists i :: 0 <= i < j && Listed(flags, |flags|, f, FAIL, s[i]) && NoSucceed(flags, f, s, i + 1, j)
  }

  lemma InList(flags: seq<Flag>, f: Flag, x: Symbol, status: Status)
    requires x.Diacritic? ==> x.flag in flags
    ensures Listed(flags, |flags|, f, status, x) <==> x.Diacritic? && FlagBuild(f, x.flag) == status
  {
    if x.Diacritic? && FlagBuild(f, x.flag) == status {
      var k :| 0 <= k < |flags| && flags[k] == x.flag;
    }
  }

  lemma {:induction false} VerdictMeans(flags: seq<Flag>, f: Flag, s: seq<Symbol>, j: nat)
    requires Over(s, flags) && j <= |s|
    ensures Verdict(s, f, j) == FAIL <==> FailsBefore(flags, f, s, j)
    ensures Verdict(s, f, j) == NONE ==> NoSucceed(flags, f, s, 0, j)
    ensures Verdict(s, f, j) == SUCCEED ==> !NoSucceed(flags, f, s, 0, j)
    decreases j
  {
    hide Listed, FlagBuild;
    if j > 0 {
      VerdictMeans(flags, f, s, j - 1);
      InList(flags, f, s[j - 1], FAIL);
      InList(flags, f, s[j - 1], SUCCEED);
      if FailsBefore(flags, f, s, j - 1) && !Listed(flags, |flags|, f, SUCCEED, s[j - 1]) {
        var i :| 0 <= i < j - 1 && Listed(flags, |flags|, f, FAIL, s[i]) && NoSucceed(flags, f, s, i + 1, j - 1);
        assert NoSucceed(flags, f, s, i + 1, j);
      }
      if FailsBefore(flags, f, s, j) && !Listed(flags, |flags|, f, FAIL, s[j - 1]) {
        var i :| 0 <= i < j && Listed(flags, |flags|, f, FAIL, s[i]) && NoSucceed(flags, f, s, i + 1, j);
        assert NoSucceed(flags, f, s, i + 1, j - 1);
      }
    }
  }

  lemma CaughtMeans(flags: seq<Flag>, f: Flag, s: seq<Symbol>, j: nat)
    requires Over(s, flags) && j < |s|
    ensures CaughtAt(flags, f, s, j) <==> s[j] == Diacritic(f) && Blocks(f, Verdict(s, f, j))
  {
    hide Listed, FlagBuild, Verdict;
    VerdictMeans(flags, f, s, j);
    assert FailsBefore(flags, f, s, j) <==>
             exists i :: 0 <= i < j && Listed(flags, |flags|, f, FAIL, s[i]) && NoSucceed(flags, f, s, i + 1, j);
  }

  // ---- The run-time check keeps pace with it ----

  lemma ReplayNext(list: map<string, Entry>, s: seq<Symbol>, j: nat)
    requires j < |s|
    ensures Replay(list, s[..j + 1]) ==
              match Replay(list, s[..j])
              case None => None
              case Some(before) =>
                match s[j]
                case Plain(_) => Some(before)
                case Diacritic(f) =>
                  if !WellFormed(f) || f.name !in before then None
                  else
                    var (ok, e) := Check(before[f.name], f, Other(before, f));
                    if ok then Some(before[f.name := e]) else None
  {
    var u := s[..j + 1];
    assert u[..|u| - 1] == s[..j] && u[|u| - 1] == s[j];
  }

  ghost predicate EntryOK(flags: seq<Flag>, a: string, e: Entry) {
    && (e.value.None? ==> !e.neg)
    && (e.value.Some? ==> exists g :: g in flags && Gives(g, a))
    && (e.neg ==> Flag(Negative, a, e.value) in flags)
  }

  // The filter of f blocks it exactly when the check would.
  ghost predicate InStep(f: Flag, e: Entry, v: Status)
    requires WellFormed(f)
  {
    !f.typ.Equal? ==> (Blocks(f, v) <==> !Check(e, f, None).0)
  }

  ghost predicate Possible(flags: seq<Flag>, f: Flag, v: Status) {
    v == FAIL ==> exists g :: g in flags && FlagBuild(f, g) == FAIL
  }

  lemma EntryStep(flags: seq<Flag>, g: Flag, e: Entry, other: Option<Entry>)
    requires g in flags && WellFormed(g) && EntryOK(flags, g.name, e) && Check(e, g, other).0
    ensures EntryOK(flags, g.name, Check(e, g, other).1)
  {
    assert Gives(g, g.name) <==> g.typ.Unify? || g.typ.Positive? || g.typ.Negative?;
    assert g.typ.Negative? ==> Flag(Negative, g.name, g.value) == g;
  }

  // A flag g of f's attribute is obeyed: it decides about f as it should.
  lemma FlagStep(flags: seq<Flag>, f: Flag, g: Flag, e: Entry, v: Status, other: Option<Entry>)
    requires NothingRevived(flags) && NothingReplaced(flags)
    requires f in flags && g in flags && WellFormed(f) && WellFormed(g) && g.name == f.name
    requires EntryOK(flags, f.name, e) && InStep(f, e, v)
    requires Possible(flags, f, v) && Check(e, g, other).0
    ensures InStep(f, Check(e, g, other).1, if FlagBuild(f, g) != NONE then FlagBuild(f, g) else v)
  {
  }

  lemma OtherAttribute(f: Flag, g: Flag)
    requires f.name != g.name
    ensures FlagBuild(f, g) == NONE
  {
  }

  lemma {:induction false} ReplayInStep(list: map<string, Entry>, flags: seq<Flag>, s: seq<Symbol>, j: nat)
    requires AllWellFormed(flags) && NothingRevived(flags) && NothingReplaced(flags)
    requires Over(s, flags) && Cleared(list, flags) && j <= |s| && Replay(list, s[..j]).Some?
    ensures var now := Replay(list, s[..j]).value;
            && now.Keys == list.Keys
            && (forall a :: a in now ==> EntryOK(flags, a, now[a]))
            && (forall f :: f in flags ==> InStep(f, now[f.name], Verdict(s, f, j))
                                           && Possible(flags, f, Verdict(s, f, j)))
    decreases j
  {
    if j == 0 {
      assert s[..0] == [];
    } else {
      ReplayNext(list, s, j - 1);
      ReplayInStep(list, flags, s, j - 1);
      hide Replay, Cleared, Check, WellFormed, FlagBuild, EntryOK, InStep, NothingRevived, NothingReplaced;
      var before, now := Replay(list, s[..j - 1]).value, Replay(list, s[..j]).value;
      if s[j - 1].Diacritic? {
        var g := s[j - 1].flag;
        var other := Other(before, g);
        EntryStep(flags, g, before[g.name], other);
        forall f | f in flags
          ensures InStep(f, now[f.name], Verdict(s, f, j)) && Possible(flags, f, Verdict(s, f, j))
        {
          if f.name == g.name {
            FlagStep(flags, f, g, before[g.name], Verdict(s, f, j - 1), other);
          } else {
            OtherAttribute(f, g);
          }
        }
      }
    }
  }

  // An E flag that compares nothing is obeyed.
  lemma EqualObeyed(flags: seq<Flag>, list: map<string, Entry>, f: Flag)
    requires EqualsIdle(flags) && f in flags && WellFormed(f) && f.typ.Equal? && f.name in list
    requires forall a :: a in list ==> EntryOK(flags, a, list[a])
    ensures Check(list[f.name], f, Other(list, f)).0
  {
    var b := f.value.value;
    if b != f.name {
      forall g | g in flags ensures !Gives(g, f.name) && !Gives(g, b) {
        assert !Compares(f, g);
      }
    }
  }

  // One more flag is obeyed exactly when its filter does not block it.
  lemma StepAgrees(list: map<string, Entry>, flags: seq<Flag>, s: seq<Symbol>, j: nat)
    requires AllWellFormed(flags) && Agreeable(flags)
    requires Over(s, flags) && Cleared(list, flags) && j < |s| && Replay(list, s[..j]).Some?
    ensures Replay(list, s[..j + 1]).Some? <==> !(s[j].Diacritic? && CaughtAt(flags, s[j].flag, s, j))
  {
    ReplayNext(list, s, j);
    ReplayInStep(list, flags, s, j);
    if s[j].Diacritic? {
      var f, now := s[j].flag, Replay(list, s[..j]).value;
      CaughtMeans(flags, f, s, j);
      hide CaughtAt, Replay, EntryOK;
      assert f in flags && InStep(f, now[f.name], Verdict(s, f, j));
      if f.typ.Equal? {
        EqualObeyed(flags, now, f);
        NoVerdict(s, f, j);
      } else {
        assert Check(now[f.name], f, None) == Check(now[f.name], f, Other(now, f));
      }
    }
  }

  lemma {:induction false} NoVerdict(s: seq<Symbol>, f: Flag, j: nat)
    requires j <= |s| && f.typ.Equal?
    ensures Verdict(s, f, j) == NONE
    decreases j
  {
    if j > 0 {
      NoVerdict(s, f, j - 1);
    }
  }

  // A prefix is obeyed exactly when nothing in it is caught.
  lemma {:induction false} PrefixAgrees(list: map<string, Entry>, flags: seq<Flag>, s: seq<Symbol>, j: nat)
    requires AllWellFormed(flags) && Agreeable(flags) && Over(s, flags) && Cleared(list, flags) && j <= |s|
    ensures Replay(list, s[..j]).Some? <==> forall k :: 0 <= k < j && s[k].Diacritic? ==>
                                                          !CaughtAt(flags, s[k].flag, s, k)
    decreases j
  {
    hide AllWellFormed, Agreeable, CaughtAt, Over, Cleared;
    if j == 0 {
      assert s[..0] == [];
    } else {
      PrefixAgrees(list, flags, s, j - 1);
      if Replay(list, s[..j - 1]).Some? {
        StepAgrees(list, flags, s, j - 1);
      } else {
        ReplayNext(list, s, j - 1);
      }
    }
  }

  // A string passes all filters exactly when the run-time check obeys it.
  lemma FiltersAgree(list: map<string, Entry>, flags: seq<Flag>, s: seq<Symbol>)
    requires AllWellFormed(flags) && Agreeable(flags) && Over(s, flags) && Cleared(list, flags)
    ensures Passes(flags, s) <==> Replay(list, s).Some?
  {
    hide CaughtAt, Relevant;
    PrefixAgrees(list, flags, s, |s|);
    assert s[..|s|] == s;
    if Replay(list, s).Some? {
      forall i | 0 <= i < |flags| ensures !Caught(flags, flags[i], s) {
        if j :| 0 <= j < |s| && CaughtAt(flags, flags[i], s, j) {
          CaughtMeans(flags, flags[i], s, j);
        }
      }
    }
    if Passes(flags, s) {
      forall k | 0 <= k < |s| && s[k].Diacritic? ensures !CaughtAt(flags, s[k].flag, s, k) {
        if CaughtAt(flags, s[k].flag, s, k) {
          var i :| 0 <= i < |flags| && flags[i] == s[k].flag;
          CaughtRelevant(flags, i, s, k);
        }
      }
    }
  }

  lemma CaughtRelevant(flags: seq<Flag>, i: nat, s: seq<Symbol>, k: nat)
    requires RequiresSettled(flags) && i < |flags| && CaughtAt(flags, flags[i], s, k)
    ensures Relevant(flags, |flags|, flags[i])
  {
    if flags[i].typ.Require? {
      var g :| g in flags && Settles(g, flags[i].name);
      SettledRelevant(flags, i, g);
    } else {
      var m :| 0 <= m < k && Listed(flags, |flags|, flags[i], FAIL, s[m]);
    }
  }

  lemma SettledRelevant(flags: seq<Flag>, i: nat, g: Flag)
    requires i < |flags| && flags[i].typ.Require? && g in flags && Settles(g, flags[i].name)
    ensures Relevant(flags, |flags|, flags[i])
  {
    var k :| 0 <= k < |flags| && flags[k] == g;
    assert FlagBuild(flags[i], flags[k]) != NONE;
  }

  // ---- Where the condition does not hold ----

  ghost predicate Differ(list: map<string, Entry>, flags: seq<Flag>, s: seq<Symbol>) {
    Over(s, flags) && (Passes(flags, s) <==> Replay(list, s).None?)
  }

  // The first flag is obeyed, as all flags but R flags are at the beginning.
  lemma FirstObeyed(list: map<string, Entry>, s: seq<Symbol>)
    requires s != [] && s[0].Diacritic? && s[0].flag.name in list && WellFormed(s[0].flag)
    requires forall a :: a in list ==> list[a] == CLEARED
    requires Gives(s[0].flag, s[0].flag.name)
    ensures Replay(list, s[..1]) ==
              Some(list[s[0].flag.name := Entry(s[0].flag.value, s[0].flag.typ.Negative?)])
  {
    assert s[..0] == [];
    ReplayNext(list, s, 0);
  }

  lemma BlockedNotPassed(flags: seq<Flag>, s: seq<Symbol>, j: nat)
    requires Over(s, flags) && j < |s| && s[j].Diacritic? && Verdict(s, s[j].flag, j) == FAIL
    ensures !Passes(flags, s)
  {
    var f := s[j].flag;
    CaughtMeans(flags, f, s, j);
    VerdictMeans(flags, f, s, j);
    hide Verdict, NoSucceed;
    var i :| 0 <= i < |flags| && flags[i] == f;
    var m :| 0 <= m < j && Listed(flags, |flags|, f, FAIL, s[m]);
    assert Relevant(flags, |flags|, f);
    assert Caught(flags, flags[i], s);
  }

  lemma RequireDiffers(list: map<string, Entry>, flags: seq<Flag>, f: Flag)
    requires AllWellFormed(flags) && Cleared(list, flags)
    requires f in flags && f.typ.Require? && forall g :: g in flags ==> !Settles(g, f.name)
    ensures Differ(list, flags, [Diacritic(f)])
  {
    var s := [Diacritic(f)];
    assert s[..0] == [] && s[..1] == s;
    ReplayNext(list, s, 0);
    forall i | 0 <= i < |flags| && Relevant(flags, |flags|, flags[i]) ensures !Caught(flags, flags[i], s) {
      var k :| 0 <= k < |flags| && FlagBuild(flags[i], flags[k]) != NONE;
      assert !Settles(flags[k], f.name);
    }
  }

  lemma RevivedDiffers(list: map<string, Entry>, flags: seq<Flag>, u: Flag, n: Flag, g: Flag)
    requires AllWellFormed(flags) && Cleared(list, flags)
    requires u in flags && n in flags && g in flags && Revives(u, n, g)
    ensures Differ(list, flags, [Diacritic(g), Diacritic(n), Diacritic(u)])
  {
    var s := [Diacritic(g), Diacritic(n), Diacritic(u)];
    assert s[..3] == s;
    FirstObeyed(list, s);
    ReplayNext(list, s, 1);
    ReplayNext(list, s, 2);
    assert Verdict(s, u, 1) == FAIL && Verdict(s, u, 2) == FAIL;
    BlockedNotPassed(flags, s, 2);
  }

  lemma ReplacedDiffers(list: map<string, Entry>, flags: seq<Flag>, d: Flag, n: Flag, u: Flag)
    requires AllWellFormed(flags) && Cleared(list, flags)
    requires d in flags && n in flags && u in flags && Replaces(d, n, u)
    ensures Differ(list, flags, [Diacritic(n), Diacritic(u), Diacritic(d)])
  {
    var s := [Diacritic(n), Diacritic(u), Diacritic(d)];
    assert s[..3] == s;
    FirstObeyed(list, s);
    ReplayNext(list, s, 1);
    ReplayNext(list, s, 2);
    assert Verdict(s, d, 1) == FAIL && Verdict(s, d, 2) == FAIL;
    BlockedNotPassed(flags, s, 2);
  }

  lemma ComparedDiffers(list: map<string, Entry>, flags: seq<Flag>, f: Flag, g: Flag)
    requires AllWellFormed(flags) && Cleared(list, flags)
    requires f in flags && g in flags && Compares(f, g)
    ensures Differ(list, flags, [Diacritic(g), Diacritic(f)])
  {
    var s := [Diacritic(g), Diacritic(f)];
    assert s[..2] == s;
    FirstObeyed(list, s);
    ReplayNext(list, s, 1);
    assert Replay(list, s).None?;
    forall i | 0 <= i < |flags| ensures !Caught(flags, flags[i], s) {
      if j :| 0 <= j < |s| && CaughtAt(flags, flags[i], s, j) {
        CaughtMeans(flags, flags[i], s, j);
        if j == 1 {
          NoVerdict(s, f, j);
        }
      }
    }
  }

  // The filters are right about all strings over the flags of the net exactly
  // under the condition.
  lemma AgreementExactly(list: map<string, Entry>, flags: seq<Flag>)
    requires AllWellFormed(flags) && Cleared(list, flags)
    ensures (forall s :: Over(s, flags) ==> (Passes(flags, s) <==> Replay(list, s).Some?)) <==> Agreeable(flags)
  {
    hide Passes, Replay, Over, Cleared, AllWellFormed;
    if Agreeable(flags) {
      forall s | Over(s, flags) ensures Passes(flags, s) <==> Replay(list, s).Some? {
        FiltersAgree(list, flags, s);
      }
    } else if f :| f in flags && f.typ.Require? && forall g :: g in flags ==> !Settles(g, f.name) {
      RequireDiffers(list, flags, f);
    } else if u, n, g :| u in flags && n in flags && g in flags && Revives(u, n, g) {
      RevivedDiffers(list, flags, u, n, g);
    } else if d, n, u :| d in flags && n in flags && u in flags && Replaces(d, n, u) {
      ReplacedDiffers(list, flags, d, n, u);
    } else {
      var f, g :| f in flags && g in flags && Compares(f, g);
      ComparedDiffers(list, flags, f, g);
    }
  }

  // Without N and E flags all that matters is that R flags are settled.
  lemma PlainFlagsAgree(flags: seq<Flag>)
    requires forall f :: f in flags ==> !f.typ.Negative? && !f.typ.Equal?
    ensures Agreeable(flags) <==> RequiresSettled(flags)
  {
  }

  // With N flags they can differ: P.a.y N.a.z U.a.x is obeyed but filtered out.
  lemma NegativeDiffers(p: Flag, n: Flag, u: Flag)
    requires p == Flag(Positive, "a", Some("y")) && n == Flag(Negative, "a", Some("z"))
             && u == Flag(Unify, "a", Some("x"))
    ensures Differ(map["a" := CLEARED], [p, n, u], [Diacritic(p), Diacritic(n), Diacritic(u)])
  {
    RevivedDiffers(map["a" := CLEARED], [p, n, u], u, n, p);
  }

  // Or agree: nothing goes before N.a.z that U.a.x would not unify with.
  lemma NegativeAgrees(n: Flag, u: Flag, s: seq<Symbol>)
    requires n == Flag(Negative, "a", Some("z")) && u == Flag(Unify, "a", Some("x")) && Over(s, [u, n])
    ensures Passes([u, n], s) <==> Replay(map["a" := CLEARED], s).Some?
  {
    assert Agreeable([u, n]);
    FiltersAgree(map["a" := CLEARED], [u, n], s);
  }

  // With E flags too: P.a.x E.a.b passes but is not obeyed.
  lemma EqualDiffers(p: Flag, e: Flag)
    requires p == Flag(Positive, "a", Some("x")) && e == Flag(Equal, "a", Some("b"))
    ensures Differ(map["a" := CLEARED], [p, e], [Diacritic(p), Diacritic(e)])
  {
    ComparedDiffers(map["a" := CLEARED], [p, e], e, p);
  }
}
