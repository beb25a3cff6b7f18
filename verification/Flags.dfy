// Flag diacritics: the run-time check of apply.c (apply_check_flag) and the
// static filters of flags.c (flag_build, flag_eliminate).

module Flags {
  import opened Options

  datatype FlagType = Unify | Clear | Disallow | Negative | Positive | Require | Equal

  datatype Flag = Flag(typ: FlagType, name: string, value: Option<string>)

  // The shapes that flag_check accepts: U, P, N and E have a value, C has none.
  predicate WellFormed(f: Flag) {
    match f.typ
    case Clear => f.value.None?
    case Disallow => true
    case Require => true
    case _ => f.value.Some?
  }

  // A symbol on an arc.
  datatype Symbol = Diacritic(flag: Flag) | Plain(number: int)

  // ---- At run time ----

  datatype Entry = Entry(value: Option<string>, neg: bool)

  const CLEARED := Entry(None, false)

  // The entry of f's attribute after f, and whether f is obeyed; other is the
  // entry of the attribute an E flag names, if there is one.
  function Check(e: Entry, f: Flag, other: Option<Entry>): (r: (bool, Entry))
    requires WellFormed(f)
  {
    match f.typ
    case Unify =>
      if e.value.None? then (true, e.(value := f.value))
      else if f.value == e.value && !e.neg then (true, e)
      else if f.value != e.value && e.neg then (true, Entry(f.value, false))
      else (false, e)
    case Clear => (true, CLEARED)
    case Disallow =>
      if e.value.None? then (true, e)
      else if f.value.None? then (false, e)
      else if f.value != e.value then (!e.neg, e)
      else (e.neg, e)
    case Negative => (true, Entry(f.value, true))
    case Positive => (true, Entry(f.value, false))
    case Require =>
      if f.value.None? then (e.value.Some?, e)
      else if e.value.None? || f.value != e.value then (false, e)
      else (!e.neg, e)
    case Equal =>
      if other.None? then (e.value.None?, e)
      else if e.value.None? || other.value.value.None?
           then (e.value.None? && other.value.value.None? && e.neg == other.value.neg, e)
      else (other.value == e, e)
  }

  function Other(list: map<string, Entry>, f: Flag): Option<Entry>
    requires WellFormed(f)
  {
    if f.typ.Equal? && f.value.value in list then Some(list[f.value.value]) else None
  }

  class FlagList {
    var list: map<string, Entry>

    // The attributes of a net, all unset.
    constructor (names: set<string>)
      ensures list.Keys == names && forall a :: a in list ==> list[a] == CLEARED
    {
      list := map a | a in names :: CLEARED;
    }

    // apply_clear_flags.
    method ClearFlags()
      modifies this
      ensures list.Keys == old(list.Keys) && forall a :: a in list ==> list[a] == CLEARED
    {
      list := map a | a in list :: CLEARED;
    }

    // apply_check_flag.
    method CheckFlag(f: Flag) returns (ok: bool)
      requires WellFormed(f) && f.name in list
      modifies this
      ensures list.Keys == old(list.Keys) && forall a :: a in list && a != f.name ==> list[a] == old(list[a])
      ensures (ok, list[f.name]) == Check(old(list[f.name]), f, Other(old(list), f))
    {
      var flist := list[f.name];
      match f.typ {
        case Unify =>
          if flist.value.None? {
            list := list[f.name := flist.(value := f.value)];
            return true;
          } else if f.value == flist.value && !flist.neg {
            return true;
          } else if f.value != flist.value && flist.neg {
            list := list[f.name := Entry(f.value, false)];
            return true;
          }
          return false;
        case Clear =>
          list := list[f.name := CLEARED];
          return true;
        case Disallow =>
          if flist.value.None? {
            return true;
          }
          if f.value.None? && flist.value.Some? {
            return false;
          }
          if f.value != flist.value {
            return !flist.neg;
          }
          if f.value == flist.value && flist.neg {
            return true;
          }
          return false;
        case Negative =>
          list := list[f.name := Entry(f.value, true)];
          return true;
        case Positive =>
          list := list[f.name := Entry(f.value, false)];
          return true;
        case Require =>
          if f.value.None? {
            return flist.value.Some?;
          }
          if flist.value.None? {
            return false;
          }
          return f.value == flist.value && !flist.neg;
        case Equal =>
          if f.value.value !in list {
            return flist.value.None?;
          }
          var flist2 := list[f.value.value];
          if flist2.value.None? || flist.value.None? {
            return flist2.value.None? && flist.value.None? && flist.neg == flist2.neg;
          }
          return flist2.value == flist.value && flist.neg == flist2.neg;
      }
    }
  }

  // The entries after a string, or None when some flag was not obeyed.
  function Replay(list: map<string, Entry>, s: seq<Symbol>): Option<map<string, Entry>> {
    if s == [] then Some(list)
    else
      match Replay(list, s[..|s| - 1])
      case None => None
      case Some(before) =>
        match s[|s| - 1]
        case Plain(_) => Some(before)
        case Diacritic(f) =>
          if !WellFormed(f) || f.name !in before then None
          else
            var (ok, e) := Check(before[f.name], f, Other(before, f));
            if ok then Some(before[f.name := e]) else None
  }

  // ---- The filters ----

  datatype Status = FAIL | SUCCEED | NONE

  // Does ff before f make f fail, or succeed?
  function FlagBuild(f: Flag, ff: Flag): Status {
    var valeq := f.value == ff.value;
    var selfnull := f.value.None?;
    if f.name != ff.name then NONE
    else
      match f.typ
      case Unify =>
        (match ff.typ
         case Positive => if valeq then SUCCEED else FAIL
         case Clear => SUCCEED
         case Unify => if valeq then NONE else FAIL
         case Negative => if valeq then FAIL else NONE
         case _ => NONE)
      case Require =>
        if selfnull then
          (match ff.typ
           case Unify => SUCCEED
           case Positive => SUCCEED
           case Negative => SUCCEED
           case Clear => FAIL
           case _ => NONE)
        else
          (match ff.typ
           case Positive => if valeq then SUCCEED else FAIL
           case Unify => if valeq then SUCCEED else FAIL
           case Negative => FAIL
           case Clear => FAIL
           case _ => NONE)
      case Disallow =>
        if selfnull then
          (match ff.typ
           case Clear => SUCCEED
           case Positive => FAIL
           case Unify => FAIL
           case Negative => FAIL
           case _ => NONE)
        else
          (match ff.typ
           case Positive => if valeq then FAIL else SUCCEED
           case Clear => SUCCEED
           case Negative => if valeq then SUCCEED else FAIL
           case Unify => if valeq then FAIL else NONE
           case _ => NONE)
      case _ => NONE
  }

  // The part of the regular-expression calculus that the filters use.
  datatype Regex = EmptySet | Single(symbol: Symbol) | Universal | Union(l: Regex,
                                                                         r: Regex) | Concat(l: Regex, r: Regex)
                 | Complement(e: Regex) | Contains(e: Regex) | Optional(e: Regex) | Intersect(l: Regex, r: Regex)

  ghost predicate Matches(e: Regex, s: seq<Symbol>)
    decreases e
  {
    match e
    case EmptySet => false
    case Single(symbol) => s == [symbol]
    case Universal => true
    case Union(l, r) => Matches(l, s) || Matches(r, s)
    case Concat(l, r) => exists i :: 0 <= i <= |s| && Matches(l, s[..i]) && Matches(r, s[i..])
    case Complement(c) => !Matches(c, s)
    case Contains(c) => exists i, j :: 0 <= i <= j <= |s| && Matches(c, s[i..j])
    case Optional(c) => s == [] || Matches(c, s)
    case Intersect(l, r) => Matches(l, s) && Matches(r, s)
  }

  // One of the flags in the first n of the list has this status for f.
  ghost predicate Listed(flags: seq<Flag>, n: nat, f: Flag, status: Status, x: Symbol)
    requires n <= |flags|
  {
    exists k :: 0 <= k < n && FlagBuild(f, flags[k]) == status && x == Diacritic(flags[k])
  }

  // The union of the symbols with a status.
  ghost predicate IsUnion(e: Regex, flags: seq<Flag>, n: nat, f: Flag, status: Status)
    requires n <= |flags|
  {
    forall s :: Matches(e, s) <==> |s| == 1 && Listed(flags, n, f, status, s[0])
  }

  ghost predicate Relevant(flags: seq<Flag>, n: nat, f: Flag)
    requires n <= |flags|
  {
    exists k :: 0 <= k < n && FlagBuild(f, flags[k]) != NONE
  }

  // No symbol of s[i..j] makes f succeed.
  ghost predicate NoSucceed(flags: seq<Flag>, f: Flag, s: seq<Symbol>, i: nat, j: nat)
    requires j <= |s|
  {
    forall k :: i <= k < j ==> !Listed(flags, |flags|, f, SUCCEED, s[k])
  }

  // f occurs at j, and something before makes it fail.
  ghost predicate CaughtAt(flags: seq<Flag>, f: Flag, s: seq<Symbol>, j: nat) {
    && j < |s| && s[j] == Diacritic(f)
    && ((f.typ.Require? && NoSucceed(flags, f, s, 0, j))
        || exists i :: 0 <= i < j && Listed(flags, |flags|, f, FAIL, s[i]) && NoSucceed(flags, f, s, i + 1, j))
  }

  ghost predicate Caught(flags: seq<Flag>, f: Flag, s: seq<Symbol>) {
    exists j :: 0 <= j < |s| && CaughtAt(flags, f, s, j)
  }

  lemma UnionNext(e: Regex, flags: seq<Flag>, k: nat, f: Flag, status: Status)
    requires k < |flags| && IsUnion(e, flags, k, f, status)
    ensures IsUnion(if FlagBuild(f, flags[k]) == status then Union(e, Single(Diacritic(flags[k])))
                                                             else e, flags, k + 1, f, status)
  {
    var e' := if FlagBuild(f, flags[k]) == status then Union(e, Single(Diacritic(flags[k]))) else e;
    forall s ensures Matches(e', s) <==> |s| == 1 && Listed(flags, k + 1, f, status, s[0]) {
      assert Matches(e, s) <==> |s| == 1 && Listed(flags, k, f, status, s[0]);
      if |s| == 1 {
        ListedNext(flags, k, f, status, s[0]);
        assert s == [s[0]];
      }
    }
  }

  lemma ListedNext(flags: seq<Flag>, k: nat, f: Flag, status: Status, x: Symbol)
    requires k < |flags|
    ensures Listed(flags, k + 1, f, status, x) <==>
              Listed(flags, k, f, status, x) || (FlagBuild(f, flags[k]) == status && x == Diacritic(flags[k]))
  {
    if Listed(flags, k + 1, f, status, x) {
      var i :| 0 <= i < k + 1 && FlagBuild(f, flags[i]) == status && x == Diacritic(flags[i]);
    }
  }

  // ---- Reading the operators ----

  ghost predicate Splits(l: Regex, r: Regex, s: seq<Symbol>, i: int) {
    0 <= i <= |s| && Matches(l, s[..i]) && Matches(r, s[i..])
  }

  ghost predicate Inside(e: Regex, s: seq<Symbol>, i: int, j: int) {
    0 <= i <= j <= |s| && Matches(e, s[i..j])
  }

  lemma OnConcat(l: Regex, r: Regex, s: seq<Symbol>)
    ensures Matches(Concat(l, r), s) <==> exists i :: Splits(l, r, s, i)
  {
    if i :| 0 <= i <= |s| && Matches(l, s[..i]) && Matches(r, s[i..]) {
      assert Splits(l, r, s, i);
    }
  }

  lemma OnContains(e: Regex, s: seq<Symbol>)
    ensures Matches(Contains(e), s) <==> exists i, j :: Inside(e, s, i, j)
  {
    if i, j :| 0 <= i <= j <= |s| && Matches(e, s[i..j]) {
      assert Inside(e, s, i, j);
    }
  }

  lemma OnOthers(e: Regex, x: Symbol, s: seq<Symbol>)
    ensures Matches(Complement(e), s) <==> !Matches(e, s)
    ensures Matches(Single(x), s) <==> s == [x]
    ensures Matches(Universal, s)
    ensures Matches(Optional(e), s) <==> s == [] || Matches(e, s)
  {
  }

  lemma Slice(s: seq<Symbol>, i: nat, j: nat, a: nat, b: nat)
    requires i <= j <= |s| && a <= b <= j - i
    ensures s[i..j][a..b] == s[i + a..i + b]
  {
    var u, v := s[i..j][a..b], s[i + a..i + b];
    assert |u| == |v|;
    forall k | 0 <= k < |u| ensures u[k] == v[k] {
      assert u[k] == s[i..j][a + k];
    }
  }

  lemma OnUnion(e: Regex, flags: seq<Flag>, f: Flag, status: Status, s: seq<Symbol>, i: nat, j: nat)
    requires IsUnion(e, flags, |flags|, f, status) && i <= j <= |s|
    ensures Matches(e, s[i..j]) <==> j == i + 1 && Listed(flags, |flags|, f, status, s[i])
  {
    if j == i + 1 {
      assert s[i..j][0] == s[i];
    }
  }

  // ~$SUCCEED between i and j.
  lemma GapMatches(succeed: Regex, flags: seq<Flag>, f: Flag, s: seq<Symbol>, i: nat, j: nat)
    requires IsUnion(succeed, flags, |flags|, f, SUCCEED) && i <= j <= |s|
    ensures Matches(Complement(Contains(succeed)), s[i..j]) <==> NoSucceed(flags, f, s, i, j)
  {
    hide Matches, IsUnion, Listed;
    var gap := s[i..j];
    OnOthers(Contains(succeed), Plain(0), gap);
    OnContains(succeed, gap);
    if a, b :| Inside(succeed, gap, a, b) {
      Slice(s, i, j, a, b);
      OnUnion(succeed, flags, f, SUCCEED, s, i + a, i + b);
    }
    if k :| i <= k < j && Listed(flags, |flags|, f, SUCCEED, s[k]) {
      Slice(s, i, j, k - i, k - i + 1);
      OnUnion(succeed, flags, f, SUCCEED, s, k, k + 1);
      assert Inside(succeed, gap, k - i, k - i + 1);
    }
  }

  // ~$SUCCEED THISFLAG from i to j.
  lemma TailMatches(succeed: Regex, flags: seq<Flag>, f: Flag, s: seq<Symbol>, i: nat, j: nat)
    requires IsUnion(succeed, flags, |flags|, f, SUCCEED) && i <= j <= |s|
    ensures Matches(Concat(Complement(Contains(succeed)), Single(Diacritic(f))), s[i..j]) <==>
              i < j && NoSucceed(flags, f, s, i, j - 1) && s[j - 1] == Diacritic(f)
  {
    hide Matches, IsUnion, NoSucceed;
    var u, gap, self := s[i..j], Complement(Contains(succeed)), Single(Diacritic(f));
    OnConcat(gap, self, u);
    if a :| Splits(gap, self, u, a) {
      Slice(s, i, j, 0, a);
      Slice(s, i, j, a, j - i);
      OnOthers(gap, Diacritic(f), u[a..]);
      assert |u[a..]| == 1 && u[a..][0] == s[i + a];
      GapMatches(succeed, flags, f, s, i, i + a);
    }
    if i < j && NoSucceed(flags, f, s, i, j - 1) && s[j - 1] == Diacritic(f) {
      var a := j - 1 - i;
      GapMatches(succeed, flags, f, s, i, j - 1);
      OnOthers(gap, Diacritic(f), u[a..]);
      assert u[..a] == s[i..j - 1] && u[a..] == [Diacritic(f)];
      assert Splits(gap, self, u, a);
    }
  }

  // FAIL ~$SUCCEED THISFLAG from i to j.
  lemma CoreMatches(fail: Regex, succeed: Regex, flags: seq<Flag>, f: Flag, s: seq<Symbol>, i: nat, j: nat)
    requires IsUnion(fail, flags, |flags|, f, FAIL) && IsUnion(succeed, flags, |flags|, f, SUCCEED) && i <= j <= |s|
    ensures Matches(Concat(fail, Concat(Complement(Contains(succeed)), Single(Diacritic(f)))), s[i..j]) <==>
              i + 1 < j && Listed(flags, |flags|, f, FAIL, s[i]) && NoSucceed(flags, f, s, i + 1, j - 1)
                  && s[j - 1] == Diacritic(f)
  {
    hide Matches, IsUnion, NoSucceed, Listed;
    var u, tail := s[i..j], Concat(Complement(Contains(succeed)), Single(Diacritic(f)));
    OnConcat(fail, tail, u);
    if a :| Splits(fail, tail, u, a) {
      Slice(s, i, j, 0, a);
      Slice(s, i, j, a, j - i);
      OnUnion(fail, flags, f, FAIL, s, i, i + a);
      TailMatches(succeed, flags, f, s, i + a, j);
    }
    if i + 1 < j && Listed(flags, |flags|, f, FAIL, s[i]) && NoSucceed(flags, f, s, i + 1, j - 1)
        && s[j - 1] == Diacritic(f) {
      Slice(s, i, j, 0, 1);
      Slice(s, i, j, 1, j - i);
      OnUnion(fail, flags, f, FAIL, s, i, i + 1);
      TailMatches(succeed, flags, f, s, i + 1, j);
      assert u[..1] == s[i..i + 1] && u[1..] == s[i + 1..j];
      assert Splits(fail, tail, u, 1);
    }
  }

  lemma ContainsCatches(fail: Regex, succeed: Regex, flags: seq<Flag>, f: Flag, s: seq<Symbol>)
    requires IsUnion(fail, flags, |flags|, f, FAIL) && IsUnion(succeed, flags, |flags|, f, SUCCEED) && !f.typ.Require?
    ensures Matches(Contains(Concat(fail, Concat(Complement(Contains(succeed)), Single(Diacritic(f))))), s) <==>
              Caught(flags, f, s)
  {
    hide Matches, IsUnion, NoSucceed, Listed;
    var core := Concat(fail, Concat(Complement(Contains(succeed)), Single(Diacritic(f))));
    OnContains(core, s);
    if i, j :| Inside(core, s, i, j) {
      CoreMatches(fail, succeed, flags, f, s, i, j);
      assert CaughtAt(flags, f, s, j - 1);
    }
    if j :| 0 <= j < |s| && CaughtAt(flags, f, s, j) {
      var i :| 0 <= i < j && Listed(flags, |flags|, f, FAIL, s[i]) && NoSucceed(flags, f, s, i + 1, j);
      CoreMatches(fail, succeed, flags, f, s, i, j + 1);
      assert Inside(core, s, i, j + 1);
    }
  }

  // ~$SUCCEED THISFLAG ?* from i on.
  lemma RestMatches(succeed: Regex, flags: seq<Flag>, f: Flag, s: seq<Symbol>, i: nat)
    requires IsUnion(succeed, flags, |flags|, f, SUCCEED) && i <= |s|
    ensures Matches(Concat(Complement(Contains(succeed)), Concat(Single(Diacritic(f)), Universal)), s[i..]) <==>
              exists j :: i <= j < |s| && s[j] == Diacritic(f) && NoSucceed(flags, f, s, i, j)
  {
    hide Matches, IsUnion, NoSucceed, Listed;
    var u, gap, self := s[i..], Complement(Contains(succeed)), Single(Diacritic(f));
    var tail := Concat(self, Universal);
    assert s[i..|s|] == u;
    OnConcat(gap, tail, u);
    if a :| Splits(gap, tail, u, a) {
      var v := u[a..];
      OnConcat(self, Universal, v);
      var b :| Splits(self, Universal, v, b);
      OnOthers(self, Diacritic(f), v[..b]);
      assert |v[..b]| == 1 && v[..b][0] == v[0] == s[i + a];
      Slice(s, i, |s|, 0, a);
      GapMatches(succeed, flags, f, s, i, i + a);
    }
    if j :| i <= j < |s| && s[j] == Diacritic(f) && NoSucceed(flags, f, s, i, j) {
      var a := j - i;
      GapMatches(succeed, flags, f, s, i, j);
      Slice(s, i, |s|, 0, a);
      var v := u[a..];
      assert v[..1] == [Diacritic(f)];
      OnOthers(self, Diacritic(f), v[..1]);
      OnOthers(self, Diacritic(f), v[1..]);
      OnConcat(self, Universal, v);
      assert Splits(self, Universal, v, 1);
      assert Splits(gap, tail, u, a);
    }
  }

  // (?* FAIL) at the front, or nothing.
  lemma FrontMatches(fail: Regex, flags: seq<Flag>, f: Flag, s: seq<Symbol>, i: nat)
    requires IsUnion(fail, flags, |flags|, f, FAIL) && i <= |s|
    ensures Matches(Optional(Concat(Universal, fail)), s[..i]) <==> i == 0 || Listed(flags, |flags|, f, FAIL, s[i - 1])
  {
    hide Matches, IsUnion, Listed;
    var u := s[..i];
    OnOthers(Concat(Universal, fail), Plain(0), u);
    OnConcat(Universal, fail, u);
    if a :| Splits(Universal, fail, u, a) {
      Slice(s, 0, i, a, i);
      assert u[a..] == s[a..i];
      OnUnion(fail, flags, f, FAIL, s, a, i);
    }
    if i > 0 && Listed(flags, |flags|, f, FAIL, s[i - 1]) {
      OnUnion(fail, flags, f, FAIL, s, i - 1, i);
      OnOthers(fail, Plain(0), u[..i - 1]);
      assert u[i - 1..] == s[i - 1..i];
      assert Splits(Universal, fail, u, i - 1);
    }
  }

  lemma RequireCatches(fail: Regex, succeed: Regex, flags: seq<Flag>, f: Flag, s: seq<Symbol>)
    requires IsUnion(fail, flags, |flags|, f, FAIL) && IsUnion(succeed, flags, |flags|, f, SUCCEED) && f.typ.Require?
    ensures Matches(Concat(Optional(Concat(Universal, fail)),
                           Concat(Complement(Contains(succeed)), Concat(Single(Diacritic(f)), Universal))), s) <==>
              Caught(flags, f, s)
  {
    hide Matches, IsUnion, Listed;
    var front := Optional(Concat(Universal, fail));
    var rest := Concat(Complement(Contains(succeed)), Concat(Single(Diacritic(f)), Universal));
    OnConcat(front, rest, s);
    if i :| Splits(front, rest, s, i) {
      FrontMatches(fail, flags, f, s, i);
      RestMatches(succeed, flags, f, s, i);
      var j :| i <= j < |s| && s[j] == Diacritic(f) && NoSucceed(flags, f, s, i, j);
      assert i > 0 ==> NoSucceed(flags, f, s, i - 1 + 1, j);
      assert CaughtAt(flags, f, s, j);
    }
    if j :| 0 <= j < |s| && CaughtAt(flags, f, s, j) {
      var i := 0;
      if !NoSucceed(flags, f, s, 0, j) {
        var k :| 0 <= k < j && Listed(flags, |flags|, f, FAIL, s[k]) && NoSucceed(flags, f, s, k + 1, j);
        i := k + 1;
      }
      FrontMatches(fail, flags, f, s, i);
      RestMatches(succeed, flags, f, s, i);
      assert Splits(front, rest, s, i);
    }
  }

  lemma FilterCatches(flags: seq<Flag>, f: Flag, succeed: Regex, fail: Regex, filter: Regex)
    requires IsUnion(fail, flags, |flags|, f, FAIL) && IsUnion(succeed, flags, |flags|, f, SUCCEED)
    requires filter == if f.typ.Require?
                       then Complement(Concat(Optional(Concat(Universal, fail)),
                                              Concat(Complement(Contains(succeed)),
                                                     Concat(Single(Diacritic(f)), Universal))))
                       else Complement(Contains(Concat(fail,
                                                       Concat(Complement(Contains(succeed)), Single(Diacritic(f))))))
    ensures forall s :: Matches(filter, s) <==> !Caught(flags, f, s)
  {
    hide Caught, IsUnion;
    forall s ensures Matches(filter, s) <==> !Caught(flags, f, s) {
      if f.typ.Require? {
        RequireCatches(fail, succeed, flags, f, s);
      } else {
        ContainsCatches(fail, succeed, flags, f, s);
      }
    }
  }

  // The filter for one flag, if any flag bears on it.
  method BuildFilter(flags: seq<Flag>, f: Flag) returns (filter: Option<Regex>)
    ensures filter.Some? <==> Relevant(flags, |flags|, f)
    ensures filter.Some? ==> forall s :: Matches(filter.value, s) <==> !Caught(flags, f, s)
  {
    var succeed, fail, flag := EmptySet, EmptySet, false;
    for k := 0 to |flags|
      invariant IsUnion(succeed, flags, k, f, SUCCEED) && IsUnion(fail, flags, k, f, FAIL)
      invariant flag <==> Relevant(flags, k, f)
    {
      var status := FlagBuild(f, flags[k]);
      UnionNext(fail, flags, k, f, FAIL);
      UnionNext(succeed, flags, k, f, SUCCEED);
      if status == FAIL {
        fail := Union(fail, Single(Diacritic(flags[k])));
        flag := true;
      }
      if status == SUCCEED {
        succeed := Union(succeed, Single(Diacritic(flags[k])));
        flag := true;
      }
    }
    if !flag {
      return None;
    }
    var self := Single(Diacritic(f));
    if f.typ.Require? {
      filter := Some(Complement(Concat(Optional(Concat(Universal, fail)),
                                       Concat(Complement(Contains(succeed)), Concat(self, Universal)))));
    } else {
      filter := Some(Complement(Contains(Concat(fail, Concat(Complement(Contains(succeed)), self)))));
    }
    FilterCatches(flags, f, succeed, fail, filter.value);
  }

  // flag_eliminate for all flags: the filters of all flags intersected.
  method BuildFilters(flags: seq<Flag>) returns (filter: Option<Regex>)
    ensures filter.None? ==> forall s :: Passes(flags, s)
    ensures filter.Some? ==> forall s :: Matches(filter.value, s) <==> Passes(flags, s)
  {
    hide Caught, Relevant, PassesFirst;
    filter := None;
    NoFilter(flags);
    for k := 0 to |flags|
      invariant filter.None? ==> forall s :: PassesFirst(flags, k, s)
      invariant filter.Some? ==> forall s :: Matches(filter.value, s) <==> PassesFirst(flags, k, s)
    {
      var newfilter := BuildFilter(flags, flags[k]);
      FilterNext(flags, k, k + 1, filter, newfilter);
      if newfilter.Some? {
        filter := if filter.None? then newfilter else Some(Intersect(filter.value, newfilter.value));
      }
    }
  }

  // s gets through the filters of the first k flags.
  ghost predicate PassesFirst(flags: seq<Flag>, k: nat, s: seq<Symbol>)
    requires k <= |flags|
  {
    forall i :: 0 <= i < k ==> Relevant(flags, |flags|, flags[i]) ==> !Caught(flags, flags[i], s)
  }

  lemma NoFilter(flags: seq<Flag>)
    ensures forall s :: PassesFirst(flags, 0, s)
  {
  }

  lemma FilterNext(flags: seq<Flag>, k: nat, next: nat, filter: Option<Regex>, newfilter: Option<Regex>)
    requires k < |flags| && next == k + 1 && (newfilter.Some? <==> Relevant(flags, |flags|, flags[k]))
    requires newfilter.Some? ==> forall s :: Matches(newfilter.value, s) <==> !Caught(flags, flags[k], s)
    requires filter.None? ==> forall s :: PassesFirst(flags, k, s)
    requires filter.Some? ==> forall s :: Matches(filter.value, s) <==> PassesFirst(flags, k, s)
    ensures newfilter.None? && filter.None? ==> forall s :: PassesFirst(flags, next, s)
    ensures newfilter.None? ==> forall s :: PassesFirst(flags, next, s) <==> PassesFirst(flags, k, s)
    ensures newfilter.Some? && filter.None? ==> forall s :: Matches(newfilter.value, s) <==> PassesFirst(flags, next, s)
    ensures newfilter.Some? && filter.Some? ==>
              forall s :: Matches(Intersect(filter.value, newfilter.value), s) <==> PassesFirst(flags, next, s)
  {
    hide Caught, Relevant;
    forall s ensures PassesFirst(flags, next, s) <==>
                     PassesFirst(flags, k, s) && (Relevant(flags, |flags|, flags[k]) ==> !Caught(flags, flags[k], s)) {
    }
    if newfilter.None? && filter.None? {
      forall s ensures PassesFirst(flags, next, s) {
        assert PassesFirst(flags, k, s);
      }
    }
  }

  ghost predicate Passes(flags: seq<Flag>, s: seq<Symbol>) {
    PassesFirst(flags, |flags|, s)
  }
}
