// triplet_hash_* (constructions.c): open addressing with linear probing.  The
// table numbers triples 0, 1, 2, ... in order of insertion.

module TripletHash {
  import opened Counting
  import opened Widths

  datatype Triple = Triple(a: int, b: int, c: int)

  datatype Slot = Slot(triple: Triple, key: int)

  const FREE := Slot(Triple(0, 0, 0), -1)

  function HashF(x: Triple): (h: nat) {
    (x.a * 7907 + x.b * 86028157 + x.c * 7919) % WORD
  }

  function Home(x: Triple, size: nat): (h: nat)
    requires size > 0
    ensures h < size
  {
    HashF(x) % size
  }

  // The j-th place probed from h.
  function Place(h: nat, j: nat, size: nat): (p: nat)
    requires h < size && j <= size
    ensures p < size
  {
    if h + j < size then h + j else h + j - size
  }

  ghost predicate Used(tab: seq<Slot>, p: int)
    requires 0 <= p < |tab|
  {
    tab[p].key != -1
  }

  // All places probed before the j-th are taken.
  ghost predicate Probed(tab: seq<Slot>, h: nat, j: nat)
    requires h < |tab| && j <= |tab|
  {
    forall i :: 0 <= i < j ==> Used(tab, Place(h, i, |tab|))
  }

  ghost predicate SlotOK(tab: seq<Slot>, p: int, keys: seq<Triple>, stored: set<int>)
    requires 0 <= p < |tab|
  {
    && tab[p].key in stored && 0 <= tab[p].key < |keys| && tab[p].triple == keys[tab[p].key]
    && exists j :: 0 <= j < |tab| && Place(Home(tab[p].triple, |tab|), j, |tab|) == p
                   && Probed(tab, Home(tab[p].triple, |tab|), j)
  }

  ghost predicate InTable(tab: seq<Slot>, k: int) {
    exists p :: 0 <= p < |tab| && tab[p].key == k
  }

  // Exactly the keys in stored are in the table, each once.
  ghost predicate TableOK(tab: seq<Slot>, keys: seq<Triple>, stored: set<int>) {
    && |tab| > 0
    && (forall p :: 0 <= p < |tab| && Used(tab, p) ==> SlotOK(tab, p, keys, stored))
    && (forall p, q :: 0 <= p < q < |tab| && Used(tab, p) ==> tab[p].key != tab[q].key)
    && (forall k :: k in stored ==> 0 <= k < |keys| && InTable(tab, k))
  }

  // Some place is free when fewer keys than slots exist.
  lemma SomeFree(tab: seq<Slot>, keys: seq<Triple>, stored: set<int>)
    requires TableOK(tab, keys, stored) && |keys| < |tab|
    ensures exists p :: 0 <= p < |tab| && !Used(tab, p)
  {
    if forall p :: 0 <= p < |tab| ==> Used(tab, p) {
      var all := seq(|tab|, p requires 0 <= p < |tab| => tab[p].key);
      forall p | 0 <= p < |all| ensures 0 <= all[p] < |keys| {
        assert Used(tab, p) && SlotOK(tab, p, keys, stored);
      }
      forall p, q | 0 <= p < q < |all| ensures all[p] != all[q] {
        assert Used(tab, p);
      }
      NoDupBound(all, |keys|);
      assert false;
    }
  }

  // Probing from h comes to every place.
  lemma AllPlaces(h: nat, p: nat, size: nat) returns (j: nat)
    requires h < size && p < size
    ensures j < size && Place(h, j, size) == p
  {
    j := if h <= p then p - h else p + size - h;
  }

  // A stored triple is found before the first free place.
  lemma FoundInTime(tab: seq<Slot>, keys: seq<Triple>, stored: set<int>, k: int, j: nat)
    requires TableOK(tab, keys, stored) && k in stored && j <= |tab|
    requires forall i :: 0 <= i < j ==> tab[Place(Home(keys[k], |tab|), i, |tab|)].triple != keys[k]
    ensures j < |tab| && Used(tab, Place(Home(keys[k], |tab|), j, |tab|))
  {
    var p :| 0 <= p < |tab| && tab[p].key == k;
    assert Used(tab, p) && SlotOK(tab, p, keys, stored);
    var h := Home(keys[k], |tab|);
    var m :| 0 <= m < |tab| && Place(h, m, |tab|) == p && Probed(tab, h, m);
    assert j <= m;
  }

  lemma PutPreserves(tab: seq<Slot>, keys: seq<Triple>, stored: set<int>, k: int, j: nat, keys': seq<Triple>)
    requires TableOK(tab, keys, stored) && keys <= keys' && 0 <= k < |keys'| && k !in stored && j < |tab|
    requires var h := Home(keys'[k], |tab|); Probed(tab, h, j) && !Used(tab, Place(h, j, |tab|))
    ensures TableOK(tab[Place(Home(keys'[k], |tab|), j, |tab|) := Slot(keys'[k], k)], keys', stored + {k})
  {
    var h := Home(keys'[k], |tab|);
    var at := Place(h, j, |tab|);
    var tab' := tab[at := Slot(keys'[k], k)];
    forall p | 0 <= p < |tab'| && Used(tab', p) ensures SlotOK(tab', p, keys', stored + {k}) {
      if p == at {
        assert Probed(tab', h, j);
      } else {
        assert Used(tab, p) && SlotOK(tab, p, keys, stored);
        var g := Home(tab[p].triple, |tab|);
        var m :| 0 <= m < |tab| && Place(g, m, |tab|) == p && Probed(tab, g, m);
        assert Probed(tab', g, m) by {
          forall i | 0 <= i < m ensures Used(tab', Place(g, i, |tab'|)) {
            assert Used(tab, Place(g, i, |tab|));
          }
        }
      }
    }
    forall p, q | 0 <= p < q < |tab'| && Used(tab', p) ensures tab'[p].key != tab'[q].key {
      if p == at || q == at {
        var other := if p == at then q else p;
        if Used(tab, other) {
          assert SlotOK(tab, other, keys, stored);
        }
      } else {
        assert Used(tab, p);
      }
    }
    forall x | x in stored + {k} ensures 0 <= x < |keys'| && InTable(tab', x) {
      if x == k {
        assert tab'[at].key == k;
      } else {
        assert InTable(tab, x);
        var p :| 0 <= p < |tab| && tab[p].key == x;
        assert Used(tab, p) && SlotOK(tab, p, keys, stored);
        assert p != at;
        assert tab'[p].key == x;
      }
    }
  }

  class TripleTable {
    var triplets: array<Slot>
    var occupancy: nat
    ghost var keys: seq<Triple>

    ghost predicate Valid()
      reads this, triplets
    {
      && triplets.Length >= 128 && occupancy == |keys| <= triplets.Length / 2
      && NoDup(keys) && TableOK(triplets[..], keys, Below(|keys|))
    }

    // triplet_hash_init.
    constructor ()
      ensures Valid() && keys == [] && fresh(triplets)
    {
      triplets := new Slot[128](_ => FREE);
      occupancy := 0;
      keys := [];
    }

    // The first free place for x.
    method FreePlace(x: Triple, ghost names: seq<Triple>, ghost stored: set<int>) returns (p: nat, ghost j: nat)
      requires TableOK(triplets[..], names, stored) && |names| < triplets.Length
      ensures p < triplets.Length && j < triplets.Length && p == Place(Home(x, triplets.Length), j, triplets.Length)
      ensures Probed(triplets[..], Home(x, triplets.Length), j) && !Used(triplets[..], p)
    {
      hide TableOK;
      NonEmpty(triplets[..], names, stored);
      SomeFree(triplets[..], names, stored);
      ghost var free :| 0 <= free < triplets.Length && !Used(triplets[..], free);
      p := Home(x, triplets.Length);
      ghost var last := AllPlaces(p, free, triplets.Length);
      j := 0;
      while triplets[p].key != -1
        invariant j <= last && p == Place(Home(x, triplets.Length), j, triplets.Length)
        invariant Probed(triplets[..], Home(x, triplets.Length), j)
        decreases last - j
      {
        p := p + 1;
        if p >= triplets.Length {
          p := p - triplets.Length;
        }
        j := j + 1;
      }
    }

    // triplet_hash_insert_with_key, into a table under construction.
    method InsertWithKey(x: Triple, key: nat, ghost names: seq<Triple>, ghost stored: set<int>)
      requires TableOK(triplets[..], names, stored) && |names| < triplets.Length && key < |names| && key !in stored
               && names[key] == x
      modifies triplets
      ensures TableOK(triplets[..], names, stored + {key})
    {
      hide TableOK;
      var p, j := FreePlace(x, names, stored);
      PutPreserves(triplets[..], names, stored, key, j, names);
      ghost var tab := triplets[..];
      triplets[p] := Slot(x, key);
      assert triplets[..] == tab[p := Slot(x, key)];
    }

    // triplet_hash_insert.
    method Insert(x: Triple) returns (key: nat)
      requires Valid() && x !in keys
      modifies this, triplets
      ensures Valid() && key == old(|keys|) && keys == old(keys) + [x]
      ensures triplets == old(triplets) || fresh(triplets)
    {
      hide TableOK;
      var p, j := FreePlace(x, keys, Below(|keys|));
      key := occupancy;
      ghost var tab := triplets[..];
      PutPreserves(tab, keys, Below(|keys|), key, j, keys + [x]);
      triplets[p] := Slot(x, key);
      assert triplets[..] == tab[p := Slot(x, key)];
      keys := keys + [x];
      assert Below(|keys|) == Below(key) + {key};
      occupancy := occupancy + 1;
      if occupancy > triplets.Length / 2 {
        Rehash();
      }
    }

    // triplet_hash_rehash.
    method Rehash()
      requires triplets.Length >= 128 && occupancy == |keys| <= triplets.Length / 2 + 1 && NoDup(keys)
      requires TableOK(triplets[..], keys, Below(|keys|))
      modifies this`triplets
      ensures Valid() && fresh(triplets)
    {
      hide TableOK;
      var before := triplets;
      ghost var stored: set<int> := {};
      triplets := new Slot[2 * before.Length](_ => FREE);
      EmptyTable(triplets[..], keys);
      for i := 0 to before.Length
        invariant fresh(triplets) && triplets != before && triplets.Length == 2 * before.Length
                  && TableOK(triplets[..], keys, stored)
        invariant forall k :: k in stored <==> KeyBefore(before[..], i, k)
        modifies triplets
      {
        ghost var was := stored;
        if before[i].key != -1 {
          SlotFacts(before[..], keys, Below(|keys|), i);
          InsertWithKey(before[i].triple, before[i].key, keys, stored);
          stored := stored + {before[i].key};
        }
        KeysNext(before[..], i);
      }
      AllStored(before[..], keys, stored);
    }

    // triplet_hash_find.
    method Find(x: Triple) returns (key: int)
      requires Valid()
      ensures if x in keys then 0 <= key < |keys| && keys[key] == x else key == -1
    {
      hide TableOK;
      NonEmpty(triplets[..], keys, Below(|keys|));
      var p, j := Home(x, triplets.Length), 0;
      ghost var h := p;
      while j < triplets.Length
        invariant j <= triplets.Length && p == Place(h, j, triplets.Length)
        invariant forall i :: 0 <= i < j ==> triplets[Place(h, i, triplets.Length)].triple != x
      {
        if triplets[p].key == -1 {
          NotStored(x, j);
          return -1;
        }
        if triplets[p].triple == x {
          SlotFacts(triplets[..], keys, Below(|keys|), p);
          return triplets[p].key;
        }
        p := p + 1;
        if p >= triplets.Length {
          p := p - triplets.Length;
        }
        j := j + 1;
      }
      NotStored(x, j);
      return -1;
    }

    lemma NotStored(x: Triple, j: nat)
      requires Valid() && j <= triplets.Length
      requires forall i :: 0 <= i < j ==> triplets[Place(Home(x, triplets.Length), i, triplets.Length)].triple != x
      requires j < triplets.Length ==> !Used(triplets[..], Place(Home(x, triplets.Length), j, triplets.Length))
      ensures x !in keys
    {
      if x in keys {
        var k :| 0 <= k < |keys| && keys[k] == x;
        FoundInTime(triplets[..], keys, Below(|keys|), k, j);
      }
    }
  }

  lemma NonEmpty(tab: seq<Slot>, keys: seq<Triple>, stored: set<int>)
    requires TableOK(tab, keys, stored)
    ensures |tab| > 0
  {
  }

  lemma EmptyTable(tab: seq<Slot>, keys: seq<Triple>)
    requires |tab| > 0 && forall p :: 0 <= p < |tab| ==> tab[p] == FREE
    ensures TableOK(tab, keys, {})
  {
  }

  lemma SlotFacts(tab: seq<Slot>, keys: seq<Triple>, stored: set<int>, p: nat)
    requires TableOK(tab, keys, stored) && p < |tab| && tab[p].key != -1
    ensures 0 <= tab[p].key < |keys| && tab[p].triple == keys[tab[p].key]
    ensures !KeyBefore(tab, p, tab[p].key)
  {
    assert Used(tab, p) && SlotOK(tab, p, keys, stored);
    forall q | 0 <= q < p ensures tab[q].key != tab[p].key {
      assert Used(tab, q) ==> tab[q].key != tab[p].key;
    }
  }

  ghost predicate KeyBefore(tab: seq<Slot>, i: nat, k: int)
    requires i <= |tab|
  {
    k != -1 && exists p :: 0 <= p < i && tab[p].key == k
  }

  lemma KeysNext(tab: seq<Slot>, i: nat)
    requires i < |tab|
    ensures forall k :: KeyBefore(tab, i + 1, k) <==> KeyBefore(tab, i, k) || (k != -1 && k == tab[i].key)
  {
    forall k ensures KeyBefore(tab, i + 1, k) <==> KeyBefore(tab, i, k) || (k != -1 && k == tab[i].key) {
      if KeyBefore(tab, i + 1, k) {
        var p :| 0 <= p < i + 1 && tab[p].key == k;
      }
    }
  }

  lemma AllStored(tab: seq<Slot>, keys: seq<Triple>, stored: set<int>)
    requires TableOK(tab, keys, Below(|keys|)) && forall k :: k in stored <==> KeyBefore(tab, |tab|, k)
    ensures stored == Below(|keys|)
  {
    forall k | k in Below(|keys|) ensures k in stored {
      assert InTable(tab, k);
    }
    forall k | k in stored ensures k in Below(|keys|) {
      var p :| 0 <= p < |tab| && tab[p].key == k;
      assert Used(tab, p) && SlotOK(tab, p, keys, Below(|keys|));
    }
  }
}
