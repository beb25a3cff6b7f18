// The first half of fsm_merge_sigma (constructions.c): two sorted alphabets are
// merged, and the symbols numbered anew without gaps.

module MergeSigma {
  import opened Nets
  import opened Alphabets

  // presence: 1 in the first alphabet only, 2 in the second only, 3 in both.
  datatype MSym = MSym(number: int, symbol: string, presence: int)

  // What symbols are compared by: the numbers 0, 1 and 2 come first.
  datatype Key = Special(n: int) | Ordinary(x: string)

  function KeyOf(number: int, symbol: string): Key {
    if number <= IDENTITY then Special(number) else Ordinary(symbol)
  }

  function SymKey(s: Sym): Key {
    KeyOf(s.number, s.symbol)
  }

  function MKey(s: MSym): Key {
    KeyOf(s.number, s.symbol)
  }

  predicate KeyLess(a: Key, b: Key) {
    match (a, b)
    case (Special(m), Special(n)) => m < n
    case (Special(_), Ordinary(_)) => true
    case (Ordinary(_), Special(_)) => false
    case (Ordinary(x), Ordinary(y)) => Less(x, y)
  }

  lemma KeyTotal(a: Key, b: Key)
    ensures KeyLess(a, b) || a == b || KeyLess(b, a)
    ensures !(KeyLess(a, b) && KeyLess(b, a)) && !KeyLess(a, a)
  {
    if a.Ordinary? {
      LessTotal(a.x, a.x);
      if b.Ordinary? {
        LessTotal(a.x, b.x);
      }
    }
  }

  lemma KeyTrans(a: Key, b: Key, c: Key)
    requires KeyLess(a, b) && KeyLess(b, c)
    ensures KeyLess(a, c)
  {
    if a.Ordinary? {
      LessTrans(a.x, b.x, c.x);
    }
  }

  ghost predicate Sorted(s: seq<Sym>) {
    forall i, j :: 0 <= i < j < |s| ==> KeyLess(SymKey(s[i]), SymKey(s[j]))
  }

  lemma SigmaSorted(s: seq<Sym>)
    requires SigmaOK(s)
    ensures Sorted(s)
  {
    hide Less;
  }

  ghost predicate HasKey(s: seq<Sym>, k: Key) {
    exists i :: 0 <= i < |s| && SymKey(s[i]) == k
  }

  ghost predicate HasMKey(ms: seq<MSym>, k: Key) {
    exists i :: 0 <= i < |ms| && MKey(ms[i]) == k
  }

  ghost predicate PresenceOK(m: MSym, s1: seq<Sym>, s2: seq<Sym>) {
    && (m.presence == 1 || m.presence == 2 || m.presence == 3)
    && (HasKey(s1, MKey(m)) <==> m.presence != 2) && (HasKey(s2, MKey(m)) <==> m.presence != 1)
  }

  // Numbers ascend, without a gap above @.
  ghost predicate Dense(ms: seq<MSym>) {
    && (forall k :: 0 <= k < |ms| ==> ms[k].number >= 0)
    && (forall a, b :: 0 <= a < b < |ms| ==> ms[a].number < ms[b].number)
    && (forall a, b :: 0 <= a && b == a + 1 && b < |ms| && ms[b].number > IDENTITY ==>
                         ms[b].number == Successor(ms[a].number))
    && (ms != [] && ms[0].number > IDENTITY ==> ms[0].number == IDENTITY + 1)
  }

  function Successor(n: int): int {
    if n <= IDENTITY then IDENTITY + 1 else n + 1
  }

  // The merged alphabet ms of s1[..i] and s2[..j].
  ghost predicate Merged(ms: seq<MSym>, s1: seq<Sym>, i: nat, s2: seq<Sym>, j: nat) {
    && i <= |s1| && j <= |s2| && Dense(ms)
    && (forall k :: 0 <= k < |ms| ==> PresenceOK(ms[k], s1, s2))
    && (forall a, b :: 0 <= a < b < |ms| ==> KeyLess(MKey(ms[a]), MKey(ms[b])))
    && MergedUpto(ms, s1, i) && MergedUpto(ms, s2, j)
  }

  // The symbols of s below i are there, and the others come after all.
  ghost predicate MergedUpto(ms: seq<MSym>, s: seq<Sym>, i: nat)
    requires i <= |s|
  {
    && (forall a :: 0 <= a < i ==> HasMKey(ms, SymKey(s[a])))
    && (forall k, a :: 0 <= k < |ms| && i <= a < |s| ==> KeyLess(MKey(ms[k]), SymKey(s[a])))
  }

  // mapping gives every symbol of s[..i] its number in ms.
  ghost predicate Mapped(mapping: seq<int>, s: seq<Sym>, i: nat, ms: seq<MSym>) {
    && i <= |s| && (forall a :: 0 <= a < |s| ==> s[a].number < |mapping|)
    && (forall a :: 0 <= a < i && s[a].number > IDENTITY ==> NumberIn(ms, s[a].symbol, mapping[s[a].number]))
  }

  ghost predicate NumberIn(ms: seq<MSym>, x: string, n: int) {
    exists k :: 0 <= k < |ms| && ms[k].number == n > IDENTITY && ms[k].symbol == x
  }

  // If an alphabet has ? or @ and new symbols have come, that was noticed.
  ghost predicate Noticed(unknown: bool, s: seq<Sym>, i: nat, other: seq<Sym>) {
    i <= |s| && forall a :: 0 <= a < i && (s[a].number == UNKNOWN || s[a].number == IDENTITY) ==>
      unknown || forall b :: 0 <= b < |other| ==> other[b].number <= IDENTITY
  }

  // add_to_mergesigma.
  function AddToMergesigma(ms: seq<MSym>, s: Sym, presence: int): seq<MSym> {
    var number := if ms == [] then IDENTITY else ms[|ms| - 1].number;
    ms + [MSym(if s.number < 3 then s.number else (if number < 3 then 2 else number) + 1, s.symbol, presence)]
  }

  lemma AddedKey(ms: seq<MSym>, s: Sym, presence: int)
    ensures var m := AddToMergesigma(ms, s, presence)[|ms|]; MKey(m) == SymKey(s) && m.presence == presence
                                                             && m.symbol == s.symbol
    ensures Dense(ms) && s.number >= 0 && (forall k :: 0 <= k < |ms| ==> KeyLess(MKey(ms[k]), SymKey(s))) ==>
              Dense(AddToMergesigma(ms, s, presence))
  {
    hide Less;
  }

  lemma NotIn(ms: seq<MSym>, s: seq<Sym>, i: nat, key: Key)
    requires Sorted(s) && i <= |s| && (forall a :: 0 <= a < i ==> HasMKey(ms, SymKey(s[a])))
    requires (forall k :: 0 <= k < |ms| ==> KeyLess(MKey(ms[k]), key)) && (i < |s| ==> KeyLess(key, SymKey(s[i])))
    ensures !HasKey(s, key)
  {
    hide KeyLess;
    KeyTotal(key, key);
    forall a | 0 <= a < |s| ensures SymKey(s[a]) != key {
      if a < i {
        assert HasMKey(ms, SymKey(s[a]));
      } else if a > i {
        KeyTrans(key, SymKey(s[i]), SymKey(s[a]));
      }
    }
  }

  // The next symbol, from one list or from both.
  lemma MergeNext(ms: seq<MSym>, s1: seq<Sym>, i: nat, s2: seq<Sym>, j: nat, i': nat, j': nat, s: Sym, presence: int)
    requires Merged(ms, s1, i, s2, j) && Sorted(s1) && Sorted(s2) && i <= i' <= i + 1 && j <= j' <= j + 1 && i' <= |s1|
             && j' <= |s2| && s.number >= 0
    requires presence == (if i' == i then 2 else if j' == j then 1 else 3) && i' + j' > i + j
    requires if i' > i then SymKey(s1[i]) == SymKey(s) else i < |s1| ==> KeyLess(SymKey(s), SymKey(s1[i]))
    requires if j' > j then SymKey(s2[j]) == SymKey(s) else j < |s2| ==> KeyLess(SymKey(s), SymKey(s2[j]))
    ensures Merged(AddToMergesigma(ms, s, presence), s1, i', s2, j')
  {
    hide KeyLess, Dense, AddToMergesigma, MergedUpto, HasKey, Sorted;
    var key, ms' := SymKey(s), AddToMergesigma(ms, s, presence);
    if i' > i {
      NextComesAfter(ms, s1, i, key);
    } else {
      NextComesAfter(ms, s2, j, key);
    }
    SideNext(ms, s1, i, i', s, presence);
    SideNext(ms, s2, j, j', s, presence);
    AddedKey(ms, s, presence);
    AddedAt(ms, s, presence);
    forall k | 0 <= k < |ms'| ensures PresenceOK(ms'[k], s1, s2) {
      if k < |ms| {
        assert PresenceOK(ms[k], s1, s2);
      }
    }
  }

  lemma NextComesAfter(ms: seq<MSym>, l: seq<Sym>, i: nat, key: Key)
    requires i < |l| && MergedUpto(ms, l, i) && SymKey(l[i]) == key
    ensures forall k :: 0 <= k < |ms| ==> KeyLess(MKey(ms[k]), key)
  {
  }

  // One of the two lists: the new symbol is its next one, or none of its symbols.
  lemma SideNext(ms: seq<MSym>, l: seq<Sym>, i: nat, i': nat, s: Sym, presence: int)
    requires i <= i' <= i + 1 && i' <= |l| && MergedUpto(ms, l, i) && Sorted(l)
    requires forall k :: 0 <= k < |ms| ==> KeyLess(MKey(ms[k]), SymKey(s))
    requires if i' > i then SymKey(l[i]) == SymKey(s) else i < |l| ==> KeyLess(SymKey(s), SymKey(l[i]))
    ensures MergedUpto(AddToMergesigma(ms, s, presence), l, i') && (HasKey(l, SymKey(s)) <==> i' > i)
  {
    hide KeyLess, AddToMergesigma;
    var key, ms' := SymKey(s), AddToMergesigma(ms, s, presence);
    AddedKey(ms, s, presence);
    AddedAt(ms, s, presence);
    if i' == i {
      NotIn(ms, l, i, key);
    }
    forall a | i' <= a < |l| ensures KeyLess(key, SymKey(l[a])) {
      if i' == i && i < a {
        KeyTrans(key, SymKey(l[i]), SymKey(l[a]));
      }
    }
    forall k | HasMKey(ms, k) ensures HasMKey(ms', k) {
      var a :| 0 <= a < |ms| && MKey(ms[a]) == k;
      assert ms'[a] == ms[a];
    }
    assert HasMKey(ms', key) by {
      assert MKey(ms'[|ms|]) == key;
    }
  }

  lemma AddedAt(ms: seq<MSym>, s: Sym, presence: int)
    ensures var ms' := AddToMergesigma(ms, s, presence); |ms'| == |ms| + 1
                                                         && (forall k :: 0 <= k < |ms| ==> ms'[k] == ms[k])
  {
  }

  // The numbers given stay right, and the new one is.
  lemma MapNext(mapping: seq<int>, s: seq<Sym>, i: nat, ms: seq<MSym>, x: Sym, presence: int, both: bool)
    requires Mapped(mapping, s, i, ms) && SigmaOK(s) && i < |s|
             && (both ==> s[i].symbol == x.symbol && (s[i].number > IDENTITY <==> x.number > IDENTITY))
    requires Dense(ms) && x.number >= 0
    ensures var ms' := AddToMergesigma(ms, x, presence);
            && Mapped(mapping, s, i, ms')
            && (both && s[i].number <= IDENTITY ==> Mapped(mapping, s, i + 1, ms'))
            && (both && s[i].number > IDENTITY ==> Mapped(mapping[s[i].number := ms'[|ms|].number], s, i + 1, ms'))
  {
    var ms' := AddToMergesigma(ms, x, presence);
    AddedAt(ms, x, presence);
    AddedKey(ms, x, presence);
    assert x.number > IDENTITY ==> ms'[|ms|].number > IDENTITY && ms'[|ms|].symbol == x.symbol;
    hide AddToMergesigma, Dense;
    forall a | 0 <= a < i && s[a].number > IDENTITY ensures NumberIn(ms', s[a].symbol, mapping[s[a].number]) {
      var k :| 0 <= k < |ms| && ms[k].number == mapping[s[a].number] > IDENTITY && ms[k].symbol == s[a].symbol;
      assert ms'[k] == ms[k];
    }
    if both && s[i].number > IDENTITY {
      assert NumberIn(ms', s[i].symbol, ms'[|ms|].number);
      assert forall a :: 0 <= a < i ==> s[a].number != s[i].number;
    }
  }

  lemma MapStays(mapping: seq<int>, s: seq<Sym>, i: nat, ms: seq<MSym>, x: Sym, presence: int)
    requires Mapped(mapping, s, i, ms)
    ensures Mapped(mapping, s, i, AddToMergesigma(ms, x, presence))
  {
    var ms' := AddToMergesigma(ms, x, presence);
    AddedAt(ms, x, presence);
    hide AddToMergesigma;
    forall a | 0 <= a < i && s[a].number > IDENTITY ensures NumberIn(ms', s[a].symbol, mapping[s[a].number]) {
      var k :| 0 <= k < |ms| && ms[k].number == mapping[s[a].number] > IDENTITY && ms[k].symbol == s[a].symbol;
      assert ms'[k] == ms[k];
    }
  }

  // A ? or @ that comes when the other alphabet is at its end: that alphabet
  // has no symbols of its own.
  lemma NothingNew(ms: seq<MSym>, s1: seq<Sym>, i: nat, s2: seq<Sym>, j: nat)
    requires Merged(ms, s1, i, s2, j)
    ensures i < |s1| && j == |s2| && s1[i].number <= IDENTITY ==> forall b :: 0 <= b < |s2| ==> s2[b].number <= IDENTITY
    ensures j < |s2| && i == |s1| && s2[j].number <= IDENTITY ==> forall a :: 0 <= a < |s1| ==> s1[a].number <= IDENTITY
  {
    if i < |s1| && j == |s2| && s1[i].number <= IDENTITY {
      forall b | 0 <= b < |s2| ensures s2[b].number <= IDENTITY {
        assert HasMKey(ms, SymKey(s2[b]));
      }
    }
    if j < |s2| && i == |s1| && s2[j].number <= IDENTITY {
      forall a | 0 <= a < |s1| ensures s1[a].number <= IDENTITY {
        assert HasMKey(ms, SymKey(s1[a]));
      }
    }
  }

  datatype Merge = Merge(ms: seq<MSym>, mapping1: seq<int>, mapping2: seq<int>, unknown1: bool, unknown2: bool,
                         equal: bool)

  ghost predicate AllShared(ms: seq<MSym>) {
    forall k :: 0 <= k < |ms| ==> ms[k].presence == 3
  }

  // The state of the merging loop.
  ghost predicate Merging(g: Merge, s1: seq<Sym>, i: nat, s2: seq<Sym>, j: nat) {
    && Merged(g.ms, s1, i, s2, j) && Mapped(g.mapping1, s1, i, g.ms) && Mapped(g.mapping2, s2, j, g.ms)
    && Noticed(g.unknown1, s1, i, s2) && Noticed(g.unknown2, s2, j, s1) && (g.equal ==> AllShared(g.ms))
  }

  ghost predicate SameRoom(g: Merge, g': Merge) {
    |g'.mapping1| == |g.mapping1| && |g'.mapping2| == |g.mapping2|
  }

  function Room(s1: seq<Sym>, s2: seq<Sym>): int {
    |s1| + |s2| + 30
  }

  lemma NothingMerged(g: Merge, s1: seq<Sym>, s2: seq<Sym>)
    requires g.ms == [] && (forall a :: 0 <= a < |s1| ==> s1[a].number < |g.mapping1|)
             && forall b :: 0 <= b < |s2| ==> s2[b].number < |g.mapping2|
    ensures Merging(g, s1, 0, s2, 0)
  {
  }

  lemma NoticedNext(unknown: bool, s: seq<Sym>, i: nat, other: seq<Sym>)
    requires Noticed(unknown, s, i, other) && i < |s|
    requires s[i].number == UNKNOWN || s[i].number == IDENTITY ==>
               unknown || forall b :: 0 <= b < |other| ==> other[b].number <= IDENTITY
    ensures Noticed(unknown, s, i + 1, other)
  {
  }

  lemma Noticing(unknown: bool, s: seq<Sym>, i: nat, other: seq<Sym>, unknown': bool)
    requires Noticed(unknown, s, i, other) && (unknown ==> unknown')
    ensures Noticed(unknown', s, i, other)
  {
  }

  lemma NumberFits(mapping: seq<int>, s: seq<Sym>, i: nat, ms: seq<MSym>)
    requires Mapped(mapping, s, i, ms) && SigmaOK(s)
    ensures forall a :: 0 <= a < |s| ==> 0 <= s[a].number < |mapping|
  {
  }

  // The next symbol is the first alphabet's alone.
  method TakeFirst(g: Merge, s1: seq<Sym>, i: nat, s2: seq<Sym>, j: nat) returns (g': Merge)
    requires SigmaOK(s1) && SigmaOK(s2) && Merging(g, s1, i, s2, j) && i < |s1| && j <= |s2|
    requires j < |s2| ==> KeyLess(SymKey(s1[i]), SymKey(s2[j]))
    requires s1[i].number == UNKNOWN || s1[i].number == IDENTITY ==> g.unknown1 || j == |s2|
    ensures Merging(g', s1, i + 1, s2, j) && g'.unknown2 == g.unknown2 && SameRoom(g, g')
  {
    hide Merged, Mapped, Noticed, KeyLess, AddToMergesigma, Less;
    SigmaSorted(s1);
    SigmaSorted(s2);
    NumberFits(g.mapping1, s1, i, g.ms);
    NothingNew(g.ms, s1, i, s2, j);
    NoticedNext(g.unknown1, s1, i, s2);
    MergeNext(g.ms, s1, i, s2, j, i + 1, j, s1[i], 1);
    MergedDense(g.ms, s1, i, s2, j);
    MapNext(g.mapping1, s1, i, g.ms, s1[i], 1, true);
    MapStays(g.mapping2, s2, j, g.ms, s1[i], 1);
    AddedAt(g.ms, s1[i], 1);
    var ms := AddToMergesigma(g.ms, s1[i], 1);
    g' := g.(ms := ms, equal := false);
    if s1[i].number > IDENTITY {
      g' := g'.(mapping1 := g.mapping1[s1[i].number := ms[|ms| - 1].number]);
    }
  }

  // The next symbol is the second alphabet's alone.
  method TakeSecond(g: Merge, s1: seq<Sym>, i: nat, s2: seq<Sym>, j: nat) returns (g': Merge)
    requires SigmaOK(s1) && SigmaOK(s2) && Merging(g, s1, i, s2, j) && i <= |s1| && j < |s2|
    requires i < |s1| ==> KeyLess(SymKey(s2[j]), SymKey(s1[i]))
    requires s2[j].number == UNKNOWN || s2[j].number == IDENTITY ==> g.unknown2 || i == |s1|
    ensures Merging(g', s1, i, s2, j + 1) && g'.unknown1 == g.unknown1 && SameRoom(g, g')
  {
    hide Merged, Mapped, Noticed, KeyLess, AddToMergesigma, Less;
    SigmaSorted(s1);
    SigmaSorted(s2);
    NumberFits(g.mapping2, s2, j, g.ms);
    NothingNew(g.ms, s1, i, s2, j);
    NoticedNext(g.unknown2, s2, j, s1);
    MergeNext(g.ms, s1, i, s2, j, i, j + 1, s2[j], 2);
    MergedDense(g.ms, s1, i, s2, j);
    MapNext(g.mapping2, s2, j, g.ms, s2[j], 2, true);
    MapStays(g.mapping1, s1, i, g.ms, s2[j], 2);
    AddedAt(g.ms, s2[j], 2);
    var ms := AddToMergesigma(g.ms, s2[j], 2);
    g' := g.(ms := ms, equal := false);
    if s2[j].number > IDENTITY {
      g' := g'.(mapping2 := g.mapping2[s2[j].number := ms[|ms| - 1].number]);
    }
  }

  // The next symbol is in both alphabets.
  method TakeBoth(g: Merge, s1: seq<Sym>, i: nat, s2: seq<Sym>, j: nat) returns (g': Merge)
    requires SigmaOK(s1) && SigmaOK(s2) && Merging(g, s1, i, s2, j) && i < |s1| && j < |s2|
    requires s1[i].symbol == s2[j].symbol && SymKey(s1[i]) == SymKey(s2[j])
    requires s1[i].number == UNKNOWN || s1[i].number == IDENTITY ==> g.unknown1 && g.unknown2
    ensures Merging(g', s1, i + 1, s2, j + 1) && SameRoom(g, g')
  {
    hide Merged, Mapped, Noticed, KeyLess, AddToMergesigma, Less;
    SigmaSorted(s1);
    SigmaSorted(s2);
    NumberFits(g.mapping1, s1, i, g.ms);
    NumberFits(g.mapping2, s2, j, g.ms);
    NoticedNext(g.unknown1, s1, i, s2);
    NoticedNext(g.unknown2, s2, j, s1);
    MergeNext(g.ms, s1, i, s2, j, i + 1, j + 1, s1[i], 3);
    MergedDense(g.ms, s1, i, s2, j);
    MapNext(g.mapping1, s1, i, g.ms, s1[i], 3, true);
    MapNext(g.mapping2, s2, j, g.ms, s1[i], 3, true);
    AddedAt(g.ms, s1[i], 3);
    AddedKey(g.ms, s1[i], 3);
    var ms := AddToMergesigma(g.ms, s1[i], 3);
    g' := g.(ms := ms);
    if s1[i].number > IDENTITY {
      g' := g'.(mapping1 := g.mapping1[s1[i].number := ms[|ms| - 1].number],
                mapping2 := g.mapping2[s2[j].number := ms[|ms| - 1].number]);
    }
  }

  lemma MergedDense(ms: seq<MSym>, s1: seq<Sym>, i: nat, s2: seq<Sym>, j: nat)
    requires Merged(ms, s1, i, s2, j)
    ensures Dense(ms)
  {
  }

  lemma NumbersUp(s: seq<Sym>)
    requires SigmaOK(s)
    ensures forall a :: 0 <= a < |s| ==> s[a].number >= 0
  {
  }

  method MergeSigmas(s1: seq<Sym>, s2: seq<Sym>) returns (g: Merge)
    requires SigmaOK(s1) && SigmaOK(s2)
    requires (forall a :: 0 <= a < |s1| ==> s1[a].number < Room(s1, s2))
             && forall b :: 0 <= b < |s2| ==> s2[b].number < Room(s1, s2)
    requires forall a, b :: 0 <= a < |s1| && 0 <= b < |s2| && s1[a].number == s2[b].number <= IDENTITY ==>
                              s1[a].symbol == s2[b].symbol
    ensures Merging(g, s1, |s1|, s2, |s2|) && |g.mapping1| == |g.mapping2| == Room(s1, s2)
  {
    hide Merged, Mapped, Noticed, Less, AddToMergesigma;
    NumbersUp(s1);
    NumbersUp(s2);
    hide SigmaOK;
    g := Merge([], seq(Room(s1, s2), _ => 0), seq(Room(s1, s2), _ => 0), false, false, true);
    NothingMerged(g, s1, s2);
    var i, j := 0, 0;
    while i < |s1| || j < |s2|
      invariant i <= |s1| && j <= |s2| && Merging(g, s1, i, s2, j) && |g.mapping1| == |g.mapping2| == Room(s1, s2)
      decreases |s1| - i + |s2| - j
    {
      if j == |s2| {
        g := TakeFirst(g, s1, i, s2, j);
        i := i + 1;
      } else if i == |s1| {
        g := TakeSecond(g, s1, i, s2, j);
        j := j + 1;
      } else if s1[i].number <= IDENTITY || s2[j].number <= IDENTITY {
        Noticing(g.unknown1, s1, i, s2, true);
        Noticing(g.unknown2, s2, j, s1, true);
        if s1[i].number == UNKNOWN || s1[i].number == IDENTITY {
          g := g.(unknown1 := true);
        }
        if s2[j].number == UNKNOWN || s2[j].number == IDENTITY {
          g := g.(unknown2 := true);
        }
        if s1[i].number == s2[j].number {
          g := TakeBoth(g, s1, i, s2, j);
          i, j := i + 1, j + 1;
        } else if s1[i].number < s2[j].number {
          g := TakeFirst(g, s1, i, s2, j);
          i := i + 1;
        } else {
          g := TakeSecond(g, s1, i, s2, j);
          j := j + 1;
        }
      } else if s1[i].symbol == s2[j].symbol {
        g := TakeBoth(g, s1, i, s2, j);
        i, j := i + 1, j + 1;
      } else if Less(s1[i].symbol, s2[j].symbol) {
        g := TakeFirst(g, s1, i, s2, j);
        i := i + 1;
      } else {
        LessTotal(s1[i].symbol, s2[j].symbol);
        g := TakeSecond(g, s1, i, s2, j);
        j := j + 1;
      }
    }
  }
}
