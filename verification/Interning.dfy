// nhash_* and add_T_ptr (determinize.c): the table that numbers sets of
// states.  Two lists get the same number exactly when they are the same set.

module Interning {
  import opened Nets
  import opened Counting
  import opened SetHash

  datatype Node = Node(setnum: int, size: nat, offset: nat)
  datatype Memo = Memo(finalstart: bool, size: nat, offset: nat)

  const NHASH_LOAD_LIMIT := 2

  const PRIMES := [61, 127, 251, 509, 1021, 2039, 4093, 8191, 16381, 32749, 65521, 131071, 262139, 524287, 1048573,
                   2097143, 4194301, 8388593, 16777213, 33554393, 67108859, 134217689, 268435399, 536870909,
                   1073741789, 2147483647]

  // Bucket h of the table holds exactly the sets that hash to h.
  ghost predicate BucketsOK(tab: seq<seq<Node>>, contents: seq<seq<int>>, T: seq<Memo>) {
    && |tab| > 0 && |contents| == |T|
    && (forall h, k :: 0 <= h < |tab| && 0 <= k < |tab[h]| ==> NodeOK(tab[h][k], contents, T, |tab|, h))
    && (forall i :: 0 <= i < |contents| ==> Filed(tab[Hash(contents[i], |tab|)], i))
  }

  ghost predicate NodeOK(e: Node, contents: seq<seq<int>>, T: seq<Memo>, tablesize: nat, h: int)
    requires |contents| == |T|
  {
    && 0 <= e.setnum < |T| && e.size == T[e.setnum].size && e.offset == T[e.setnum].offset
    && tablesize > 0 && Hash(contents[e.setnum], tablesize) == h
  }

  ghost predicate Filed(bucket: seq<Node>, i: int) {
    exists k :: 0 <= k < |bucket| && bucket[k].setnum == i
  }

  // The lists stored in set_table, where T says.
  ghost predicate Stored(store: seq<int>, offset: nat, contents: seq<seq<int>>, T: seq<Memo>, n: nat,
                         finals: set<int>) {
    && offset <= |store| && |contents| == |T|
    && (forall i :: 0 <= i < |T| ==> T[i].offset + T[i].size <= offset && T[i].size == |contents[i]| > 0
                                     && store[T[i].offset..T[i].offset + T[i].size] == contents[i])
    && (forall i :: 0 <= i < |T| ==> NoDup(contents[i]) && AllBelow(contents[i], n))
    && (forall i :: 0 <= i < |T| ==> (T[i].finalstart <==> Elements(contents[i]) * finals != {}))
  }

  ghost predicate Distinct(contents: seq<seq<int>>) {
    forall i, j :: 0 <= i < j < |contents| ==> Elements(contents[i]) != Elements(contents[j])
  }

  lemma DistinctSnoc(contents: seq<seq<int>>, s: seq<int>)
    requires Distinct(contents) && forall i :: 0 <= i < |contents| ==> Elements(contents[i]) != Elements(s)
    ensures Distinct(contents + [s])
  {
  }

  lemma StoreGrow(store: seq<int>, offset: nat, contents: seq<seq<int>>, T: seq<Memo>, n: nat, finals: set<int>,
                  store': seq<int>, s: seq<int>, fs: bool)
    requires Stored(store, offset, contents, T, n, finals) && NoDup(s) && AllBelow(s, n) && s != []
    requires offset + |s| <= |store'| && store'[..offset] == store[..offset] && store'[offset..offset + |s|] == s
    requires fs <==> Elements(s) * finals != {}
    ensures Stored(store', offset + |s|, contents + [s], T + [Memo(fs, |s|, offset)], n, finals)
  {
    forall i | 0 <= i < |T| ensures store'[T[i].offset..T[i].offset + T[i].size] == contents[i] {
      var a, b := T[i].offset, T[i].offset + T[i].size;
      assert store'[a..b] == store'[..offset][a..b];
      assert store[a..b] == store[..offset][a..b];
    }
  }

  lemma BucketsGrow(tab: seq<seq<Node>>, contents: seq<seq<int>>, T: seq<Memo>, s: seq<int>, e: Memo, h: int,
                    bucket: seq<Node>)
    requires BucketsOK(tab, contents, T) && h == Hash(s, |tab|)
    requires bucket == InsertAfterHead(tab[h], Node(|T|, e.size, e.offset))
    ensures BucketsOK(tab[h := bucket], contents + [s], T + [e])
  {
    var tab', contents', T' := tab[h := bucket], contents + [s], T + [e];
    InsertedNodes(tab[h], Node(|T|, e.size, e.offset));
    forall g, k | 0 <= g < |tab'| && 0 <= k < |tab'[g]| ensures NodeOK(tab'[g][k], contents', T', |tab'|, g) {
      if g == h && tab'[g][k] == Node(|T|, e.size, e.offset) {
        assert contents'[|T|] == s;
      } else {
        assert tab'[g][k] in tab[g];
        var m :| 0 <= m < |tab[g]| && tab[g][m] == tab'[g][k];
        assert NodeOK(tab[g][m], contents, T, |tab|, g);
      }
    }
    forall i | 0 <= i < |contents'| ensures Filed(tab'[Hash(contents'[i], |tab'|)], i) {
      if i == |T| {
        assert Node(|T|, e.size, e.offset) in bucket;
        var k :| 0 <= k < |bucket| && bucket[k] == Node(|T|, e.size, e.offset);
      } else {
        var g := Hash(contents[i], |tab|);
        assert Filed(tab[g], i);
        var k :| 0 <= k < |tab[g]| && tab[g][k].setnum == i;
        assert tab[g][k] in tab'[g];
      }
    }
  }

  // A bucket is its head node followed by the chain; newcomers go right after
  // the head.
  function InsertAfterHead(bucket: seq<Node>, e: Node): seq<Node> {
    if bucket == [] then [e] else [bucket[0], e] + bucket[1..]
  }

  lemma InsertedNodes(bucket: seq<Node>, e: Node)
    ensures forall x :: x in InsertAfterHead(bucket, e) <==> x in bucket || x == e
  {
    var r := InsertAfterHead(bucket, e);
    forall x ensures x in r <==> x in bucket || x == e {
      if x in bucket {
        var k :| 0 <= k < |bucket| && bucket[k] == x;
        assert r[if k == 0 then 0 else k + 1] == x;
      }
      if x == e {
        assert r[if bucket == [] then 0 else 1] == e;
      }
    }
  }

  // The stamps decide whether a stored list of the right length is the set.
  lemma SameSet(c: seq<int>, s: seq<int>)
    requires NoDup(c) && NoDup(s) && |c| == |s| && forall x :: x in c ==> x in s
    ensures Elements(c) == Elements(s)
  {
    NoDupSize(c);
    NoDupSize(s);
    SubsetSize(Elements(c), Elements(s));
  }

  // While a table is rebuilt: the nodes moved so far.
  ghost predicate Moved(tab: seq<seq<Node>>, contents: seq<seq<int>>, T: seq<Memo>, done: set<int>) {
    && |tab| > 0 && |contents| == |T|
    && (forall h, k :: 0 <= h < |tab| && 0 <= k < |tab[h]| ==> NodeOK(tab[h][k], contents, T, |tab|, h))
    && (forall i :: 0 <= i < |contents| && i in done ==> Filed(tab[Hash(contents[i], |tab|)], i))
  }

  lemma MoveOne(tab: seq<seq<Node>>, contents: seq<seq<int>>, T: seq<Memo>, done: set<int>, e: Node, h: int)
    requires Moved(tab, contents, T, done) && NodeOK(e, contents, T, |tab|, h)
    ensures 0 <= h < |tab| && Moved(tab[h := InsertAfterHead(tab[h], e)], contents, T, done + {e.setnum})
  {
    var bucket := InsertAfterHead(tab[h], e);
    var tab' := tab[h := bucket];
    InsertedNodes(tab[h], e);
    forall g, k | 0 <= g < |tab'| && 0 <= k < |tab'[g]| ensures NodeOK(tab'[g][k], contents, T, |tab'|, g) {
      if g == h && tab'[g][k] != e {
        assert tab'[g][k] in tab[g];
        var m :| 0 <= m < |tab[g]| && tab[g][m] == tab'[g][k];
        assert NodeOK(tab[g][m], contents, T, |tab|, g);
      }
    }
    forall i | 0 <= i < |contents| && i in done + {e.setnum} ensures Filed(tab'[Hash(contents[i], |tab'|)], i) {
      if i == e.setnum {
        assert e in bucket;
        var k :| 0 <= k < |bucket| && bucket[k] == e;
      } else {
        var g := Hash(contents[i], |tab|);
        assert Filed(tab[g], i);
        var k :| 0 <= k < |tab[g]| && tab[g][k].setnum == i;
        assert tab[g][k] in tab'[g];
      }
    }
  }

  class Interner {
    const n: nat
    const finals: seq<bool>
    var table: array<seq<Node>>
    var setTable: array<int>
    var offset: nat
    var T: seq<Memo>
    var load: nat
    var stack: seq<int>
    ghost var contents: seq<seq<int>>

    ghost predicate Valid()
      reads this, table, setTable
    {
      && |finals| == n && table.Length > 0 && offset < setTable.Length && |contents| == |T|
      && BucketsOK(table[..], contents, T)
      && Stored(setTable[..], offset, contents, T, n, FinalSet(finals))
      && Distinct(contents)
    }

    constructor (n: nat, finals: seq<bool>, tablesize: nat, initialSize: nat)
      requires |finals| == n && tablesize > 0 && initialSize > 0
      ensures Valid() && this.n == n && this.finals == finals && contents == [] && stack == [] && T == []
      ensures fresh(table) && fresh(setTable)
    {
      this.n := n;
      this.finals := finals;
      table := new seq<Node>[tablesize](_ => []);
      setTable := new int[initialSize](_ => 0);
      offset := 0;
      T := [];
      load := 0;
      stack := [];
      contents := [];
    }

    // move_set: the table doubles until the list fits.
    method MoveSet(s: seq<int>) returns (oldOffset: nat)
      requires offset < setTable.Length
      modifies this`setTable, this`offset, setTable
      ensures oldOffset == old(offset) && offset == oldOffset + |s| < setTable.Length
      ensures setTable[..oldOffset] == old(setTable[..offset]) && setTable[oldOffset..offset] == s
      ensures setTable == old(setTable) || fresh(setTable)
    {
      if offset + |s| >= setTable.Length {
        Grow(offset + |s|);
      }
      CopyIn(s);
      oldOffset := offset;
      offset := offset + |s|;
    }

    method Grow(needed: nat)
      requires offset < setTable.Length
      modifies this`setTable
      ensures fresh(setTable) && needed < setTable.Length && offset < setTable.Length
      ensures setTable[..offset] == old(setTable[..offset])
    {
      var size := setTable.Length;
      while needed >= size
        invariant size >= setTable.Length
        decreases needed - size
      {
        size := size * 2;
      }
      var bigger := new int[size](_ => 0);
      for i := 0 to offset
        invariant bigger[..i] == setTable[..i]
        modifies bigger
      {
        bigger[i] := setTable[i];
      }
      setTable := bigger;
    }

    method CopyIn(s: seq<int>)
      requires offset + |s| < setTable.Length
      modifies setTable
      ensures setTable[..offset] == old(setTable[..offset]) && setTable[offset..offset + |s|] == s
    {
      for i := 0 to |s|
        invariant setTable[..offset] == old(setTable[..offset])
        invariant forall k :: 0 <= k < i ==> setTable[offset + k] == s[k]
        modifies setTable
      {
        setTable[offset + i] := s[i];
      }
    }

    method AnyFinal(s: seq<int>) returns (fs: bool)
      requires Valid() && AllBelow(s, n)
      ensures fs <==> Elements(s) * FinalSet(finals) != {}
    {
      fs := false;
      for i := 0 to |s|
        invariant fs <==> exists k :: 0 <= k < i && finals[s[k]]
      {
        if finals[s[i]] {
          fs := true;
        }
      }
      FinalAmong(s, fs);
    }

    // nhash_insert and add_T_ptr.
    method Insert(h: int, s: seq<int>) returns (setnum: nat)
      requires Valid() && h == Hash(s, table.Length) && 0 <= h < table.Length
      requires NoDup(s) && AllBelow(s, n) && s != [] && forall i :: 0 <= i < |T| ==>
                                                                      Elements(contents[i]) != Elements(s)
      modifies this`setTable, this`offset, this`T, this`load, this`stack, this`contents, table, setTable
      ensures Valid() && setnum == old(|T|) && contents == old(contents) + [s] && |T| == setnum + 1
      ensures stack == old(stack) + [setnum] && (setTable == old(setTable) || fresh(setTable)) && T[..setnum] == old(T)
    {
      hide BucketsOK, Stored, Hash, Distinct, NoDup, AllBelow, InsertAfterHead, FinalSet;
      setnum := |T|;
      load := load + 1;
      var fs := AnyFinal(s);
      DistinctSnoc(contents, s);
      ghost var tab0, store0, off0 := table[..], setTable[..], offset;
      var off := MoveSet(s);
      table[h] := InsertAfterHead(table[h], Node(setnum, |s|, off));
      assert table[..] == tab0[h := table[h]];
      StoreGrow(store0, off0, contents, T, n, FinalSet(finals), setTable[..], s, fs);
      BucketsGrow(tab0, contents, T, s, Memo(fs, |s|, off), h, table[h]);
      T := T + [Memo(fs, |s|, off)];
      contents := contents + [s];
      stack := stack + [setnum];
    }

    lemma FinalAmong(s: seq<int>, fs: bool)
      requires |finals| == n && AllBelow(s, n) && (fs <==> exists k :: 0 <= k < |s| && finals[s[k]])
      ensures fs <==> Elements(s) * FinalSet(finals) != {}
    {
      if fs {
        var k :| 0 <= k < |s| && finals[s[k]];
        assert s[k] in Elements(s) * FinalSet(finals);
      }
      if Elements(s) * FinalSet(finals) != {} {
        var x :| x in Elements(s) * FinalSet(finals);
        var k :| 0 <= k < |s| && s[k] == x;
      }
    }

    // Is the stored list all stamped, that is, within the set in temp_move?
    method AllStamped(e: Node, eTable: array<int>, stamp: int, ghost s: seq<int>, ghost i: int) returns (found: bool)
      requires Valid() && 0 <= i < |T| && e.size == T[i].size && e.offset == T[i].offset
      requires eTable.Length == n && eTable != setTable && forall x :: 0 <= x < n ==> (eTable[x] == stamp <==> x in s)
      ensures found <==> forall x :: x in contents[i] ==> x in s
    {
      hide BucketsOK;
      found := true;
      ghost var c := contents[i];
      assert setTable[e.offset..e.offset + e.size] == c;
      for j := 0 to e.size
        invariant found && forall k :: 0 <= k < j ==> c[k] in s
      {
        assert setTable[e.offset + j] == setTable[e.offset..e.offset + e.size][j] == c[j];
        if eTable[setTable[e.offset + j]] != stamp {
          found := false;
          return;
        }
      }
    }

    // A set that is stored at all is stored in its bucket.
    lemma InItsBucket(s: seq<int>, h: int, i: int) returns (k: int)
      requires Valid() && NoDup(s) && table.Length > 0 && h == Hash(s, table.Length)
      requires 0 <= i < |T| && Elements(contents[i]) == Elements(s)
      ensures 0 <= h < table.Length && 0 <= k < |table[h]| && table[h][k].setnum == i
    {
      hide Hash;
      HashOfSet(contents[i], s, table.Length);
      assert Filed(table[..][Hash(contents[i], table.Length)], i);
      k :| 0 <= k < |table[h]| && table[h][k].setnum == i;
    }

    lemma NodeFacts(h: int, k: int)
      requires Valid() && 0 <= h < table.Length && 0 <= k < |table[h]|
      ensures var e := table[h][k];
              0 <= e.setnum < |T| && e.size == T[e.setnum].size == |contents[e.setnum]|
                  && e.offset == T[e.setnum].offset
              && NoDup(contents[e.setnum])
    {
      assert NodeOK(table[..][h][k], contents, T, table.Length, h);
    }

    // Searches one bucket.
    method Lookup(s: seq<int>, h: int, eTable: array<int>, stamp: int) returns (found: bool, setnum: nat)
      requires Valid() && NoDup(s) && table.Length > 0 && h == Hash(s, table.Length) && 0 <= h < table.Length
      requires eTable.Length == n && eTable != setTable && forall x :: 0 <= x < n ==> (eTable[x] == stamp <==> x in s)
      ensures found ==> setnum < |T| && Elements(contents[setnum]) == Elements(s)
      ensures !found ==> forall i :: 0 <= i < |T| ==> Elements(contents[i]) != Elements(s)
    {
      hide BucketsOK, Stored, Hash, Distinct;
      found, setnum := false, 0;
      var bucket := table[h];
      for k := 0 to |bucket|
        invariant forall j :: 0 <= j < k ==> 0 <= bucket[j].setnum < |T|
                                             && Elements(contents[bucket[j].setnum]) != Elements(s)
      {
        var e := bucket[k];
        NodeFacts(h, k);
        if e.size != |s| {
          NoDupSize(contents[e.setnum]);
          NoDupSize(s);
        } else {
          var all := AllStamped(e, eTable, stamp, s, e.setnum);
          if all {
            SameSet(contents[e.setnum], s);
            return true, e.setnum;
          }
          ghost var x :| x in contents[e.setnum] && x !in s;
          assert x in Elements(contents[e.setnum]) && x !in Elements(s);
        }
      }
      forall i | 0 <= i < |T| ensures Elements(contents[i]) != Elements(s) {
        if Elements(contents[i]) == Elements(s) {
          var k := InItsBucket(s, h, i);
        }
      }
    }

    // The next prime in the list; its end is never reached by a counter that
    // fits an int.
    method NextSize() returns (size: nat)
      ensures size > 0
    {
      var i := 0;
      while i < |PRIMES| - 1 && PRIMES[i] < table.Length
        invariant i < |PRIMES|
      {
        i := i + 1;
      }
      size := if i + 1 < |PRIMES| then PRIMES[i + 1] else PRIMES[i];
    }

    // nhash_rebuild_table: all nodes move to a bigger table.
    method Rebuild()
      requires Valid()
      modifies this`table, this`load
      ensures Valid() && fresh(table)
    {
      hide BucketsOK, Stored, Hash, Distinct, Moved, NodeOK;
      var size := NextSize();
      var rebuilt := new seq<Node>[size](_ => []);
      load := 0;
      ghost var done: set<int> := {};
      NothingMoved(rebuilt[..]);
      for i := 0 to table.Length
        invariant rebuilt.Length == size && Moved(rebuilt[..], contents, T, done)
        invariant forall h, k :: 0 <= h < i && 0 <= k < |table[h]| ==> table[h][k].setnum in done
        modifies rebuilt, this`load
      {
        done := MoveBucket(i, rebuilt, done);
      }
      AllMoved(rebuilt[..], done);
      table := rebuilt;
    }

    method MoveBucket(i: nat, rebuilt: array<seq<Node>>, ghost done0: set<int>) returns (ghost done: set<int>)
      requires Valid() && i < table.Length && rebuilt != table && rebuilt.Length > 0
      requires Moved(rebuilt[..], contents, T, done0)
      modifies rebuilt, this`load
      ensures Moved(rebuilt[..], contents, T, done) && done0 <= done
      ensures forall k :: 0 <= k < |table[i]| ==> table[i][k].setnum in done
    {
      hide BucketsOK, Stored, Hash, Distinct, Moved;
      done := done0;
      var bucket := table[i];
      for k := 0 to |bucket|
        invariant Moved(rebuilt[..], contents, T, done) && done0 <= done
        invariant forall j :: 0 <= j < k ==> bucket[j].setnum in done
        modifies rebuilt, this`load
      {
        var e := bucket[k];
        NodeFacts(i, k);
        StoredAt(e.setnum);
        var h := HashF(setTable[e.offset..e.offset + e.size], rebuilt.Length);
        if rebuilt[h] == [] {
          load := load + 1;
        }
        MoveOne(rebuilt[..], contents, T, done, e, h);
        ghost var before := rebuilt[..];
        rebuilt[h] := InsertAfterHead(rebuilt[h], e);
        assert rebuilt[..] == before[h := InsertAfterHead(before[h], e)];
        done := done + {e.setnum};
      }
    }

    lemma NothingMoved(tab: seq<seq<Node>>)
      requires Valid() && |tab| > 0 && forall h :: 0 <= h < |tab| ==> tab[h] == []
      ensures Moved(tab, contents, T, {})
    {
    }

    lemma AllMoved(tab: seq<seq<Node>>, done: set<int>)
      requires Valid() && Moved(tab, contents, T, done)
      requires forall h, k :: 0 <= h < table.Length && 0 <= k < |table[h]| ==> table[h][k].setnum in done
      ensures BucketsOK(tab, contents, T)
    {
      forall i | 0 <= i < |contents| ensures i in done {
        var h := Hash(contents[i], table.Length);
        assert Filed(table[..][h], i);
      }
    }

    lemma StoredAt(i: int)
      requires Valid() && 0 <= i < |T|
      ensures T[i].offset + T[i].size <= setTable.Length
              && setTable[T[i].offset..T[i].offset + T[i].size] == contents[i]
    {
      hide BucketsOK;
      assert setTable[..][T[i].offset..T[i].offset + T[i].size] == contents[i];
    }

    lemma NotFiled(s: seq<int>, h: int)
      requires Valid() && NoDup(s) && table.Length > 0 && h == Hash(s, table.Length) && 0 <= h < table.Length
               && table[h] == []
      ensures forall i :: 0 <= i < |T| ==> Elements(contents[i]) != Elements(s)
    {
      forall i | 0 <= i < |T| ensures Elements(contents[i]) != Elements(s) {
        if Elements(contents[i]) == Elements(s) {
          var k := InItsBucket(s, h, i);
        }
      }
    }

    // nhash_find_insert: the number of the set, a new one if it is new.
    method FindInsert(s: seq<int>, eTable: array<int>, stamp: int) returns (setnum: nat)
      requires Valid() && NoDup(s) && AllBelow(s, n) && s != []
      requires eTable.Length == n && eTable != setTable && forall x :: 0 <= x < n ==> (eTable[x] == stamp <==> x in s)
      modifies this`setTable, this`offset, this`T, this`load, this`stack, this`contents, this`table, table, setTable
      ensures Valid() && setnum < |T| && Elements(contents[setnum]) == Elements(s)
      ensures (exists i :: 0 <= i < old(|T|) && Elements(old(contents)[i]) == Elements(s)) ==>
                contents == old(contents) && T == old(T) && stack == old(stack)
      ensures (forall i :: 0 <= i < old(|T|) ==> Elements(old(contents)[i]) != Elements(s)) ==>
                setnum == old(|T|) && contents == old(contents) + [s] && stack == old(stack) + [setnum]
                    && |T| == setnum + 1
                && T[..setnum] == old(T)
      ensures (table == old(table) || fresh(table)) && (setTable == old(setTable) || fresh(setTable))
    {
      hide BucketsOK, Stored, Hash, Distinct;
      var h := HashF(s, table.Length);
      if table[h] == [] {
        NotFiled(s, h);
        setnum := Insert(h, s);
      } else {
        var found;
        found, setnum := Lookup(s, h, eTable, stamp);
        if !found {
          if load / NHASH_LOAD_LIMIT > table.Length {
            Rebuild();
            h := HashF(s, table.Length);
          }
          setnum := Insert(h, s);
        }
      }
    }
  }
}
