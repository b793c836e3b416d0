/**
 * The stored co-edit index of one user: a list of (neighbour, overlap)
 * entries. A query merges freshly discovered overlaps into it, sorts it by
 * overlap (descending) and the neighbour's page count (ascending), and cuts
 * it at a bound.
 */
module Ranking {
  import opened Common
  import opened Discovery

  /** One stored entry: a neighbour and the number of pages both edited. */
  datatype Entry = Entry(neighbor: string, overlap: int)

  function Neighbors(l: seq<Entry>): set<string>
  {
    set i | 0 <= i < |l| :: l[i].neighbor
  }

  ghost predicate DistinctNeighbors(l: seq<Entry>)
  {
    forall i, j :: 0 <= i < j < |l| ==> l[i].neighbor != l[j].neighbor
  }

  // ---------------------------------------------------------------------
  // Merge

  /**
   * Entry `i` after the backward merge loop: it gains the neighbour's
   * new-page count when the neighbour was discovered and no later entry
   * names it (a later entry would have popped the neighbour first).
   */
  function BumpAt(l: seq<Entry>, o: Overlaps, i: int): Entry
    requires 0 <= i < |l|
  {
    var e := l[i];
    if e.neighbor in o.pages && e.neighbor !in Neighbors(l[i + 1..])
    then Entry(e.neighbor, e.overlap + |o.pages[e.neighbor]|)
    else e
  }

  function Bumped(l: seq<Entry>, o: Overlaps): seq<Entry>
  {
    seq(|l|, i requires 0 <= i < |l| => BumpAt(l, o, i))
  }

  /** One new entry per leftover key, in the dictionary's insertion order. */
  function Appended(keys: seq<string>, pages: map<string, set<int>>): seq<Entry>
    requires forall u :: u in keys ==> u in pages
  {
    if keys == [] then [] else [Entry(keys[0], |pages[keys[0]]|)] + Appended(keys[1..], pages)
  }

  /** The discoveries that no existing entry names. */
  function Leftover(l: seq<Entry>, o: Overlaps): Overlaps
  {
    Without(o, Neighbors(l))
  }

  function Merged(l: seq<Entry>, o: Overlaps): seq<Entry>
    requires Ordered(o)
  {
    var rest := Leftover(l, o);
    Bumped(l, o) + Appended(rest.order, rest.pages)
  }

  lemma {:induction false} FilterOutAgree(s: seq<string>, a: set<string>, b: set<string>)
    requires forall u :: u in s ==> (u in a <==> u in b)
    ensures FilterOut(s, a) == FilterOut(s, b)
  {
    if s != [] {
      FilterOutAgree(s[1..], a, b);
    }
  }

  lemma NeighborsSplit(l: seq<Entry>, i: int)
    requires 0 <= i < |l|
    ensures Neighbors(l[i..]) == {l[i].neighbor} + Neighbors(l[i + 1..])
  {
    var left, right := Neighbors(l[i..]), {l[i].neighbor} + Neighbors(l[i + 1..]);
    forall u | u in left ensures u in right {
      var j :| 0 <= j < |l[i..]| && l[i..][j].neighbor == u;
      if j > 0 {
        assert l[i + 1..][j - 1] == l[i..][j];
      }
    }
    forall u | u in right ensures u in left {
      if u != l[i].neighbor {
        var j :| 0 <= j < |l[i + 1..]| && l[i + 1..][j].neighbor == u;
        assert l[i..][j + 1] == l[i + 1..][j];
      } else {
        assert l[i..][0] == l[i];
      }
    }
  }

  lemma WithoutAgree(o: Overlaps, a: set<string>, b: set<string>)
    requires Ordered(o)
    requires forall u :: u in o.pages ==> (u in a <==> u in b)
    ensures Without(o, a) == Without(o, b)
  {
    FilterOutAgree(o.order, a, b);
    assert o.pages - a == o.pages - b;
  }

  /** Popping one more name off the leftover dictionary. */
  lemma PopStep(o: Overlaps, l: seq<Entry>, i: int)
    requires Ordered(o) && 0 <= i < |l|
    ensures var ou := Without(o, Neighbors(l[i + 1..]));
      Without(o, Neighbors(l[i..])) == (if l[i].neighbor in ou.pages then Without(ou, {l[i].neighbor}) else ou)
  {
    var ut := l[i].neighbor;
    var g := Neighbors(l[i + 1..]);
    NeighborsSplit(l, i);
    assert Neighbors(l[i..]) == g + {ut};
    WithoutTwice(o, g, {ut});
    if ut !in o.pages - g {
      WithoutAgree(o, g + {ut}, g);
    }
  }

  /** One step of the backward loop: entry `i` gains the page count of its neighbour if that is still in `ou`, which is popped. */
  method BumpOne(list: seq<Entry>, o: Overlaps, i: nat, msu: seq<Entry>, ou: Overlaps)
    returns (msu': seq<Entry>, ou': Overlaps)
    requires Ordered(o) && i < |list| == |msu| && msu[i] == list[i]
    requires ou == Without(o, Neighbors(list[i + 1..]))
    ensures msu' == msu[i := BumpAt(list, o, i)]
    ensures ou' == Without(o, Neighbors(list[i..]))
  {
    PopStep(o, list, i);
    msu', ou' := msu, ou;
    var ut := msu[i].neighbor;
    var overlap := msu[i].overlap;
    ghost var later := Neighbors(list[i + 1..]);
    assert ut in ou.pages <==> ut in o.pages && ut !in later;
    if ut in ou.pages {
      var newPages := ou.pages[ut];
      assert newPages == o.pages[ut];
      ou' := Without(ou, {ut});
      overlap := overlap + |newPages|;
      msu' := msu[i := Entry(ut, overlap)];
      assert Entry(ut, overlap) == BumpAt(list, o, i);
    } else {
      assert msu[i] == BumpAt(list, o, i);
      assert msu == msu[i := msu[i]];
    }
  }

  /**
   * The backward index loop of the merge: each entry whose neighbour is
   * still in the discovery dictionary gains that neighbour's page count, and
   * the neighbour is popped.
   */
  method BumpExisting(list: seq<Entry>, o: Overlaps) returns (msu: seq<Entry>, ou: Overlaps)
    requires Ordered(o)
    ensures msu == Bumped(list, o)
    ensures ou == Leftover(list, o)
  {
    msu := list;
    ou := o;
    var i := |list|;
    FilterOutNone(o.order);
    assert Neighbors(list[i..]) == {};
    assert o.pages - {} == o.pages;
    while i > 0
      invariant 0 <= i <= |list| && |msu| == |list|
      invariant forall j :: 0 <= j < i ==> msu[j] == list[j]
      invariant forall j :: i <= j < |list| ==> msu[j] == BumpAt(list, o, j)
      invariant ou == Without(o, Neighbors(list[i..]))
    {
      i := i - 1;
      msu, ou := BumpOne(list, o, i, msu, ou);
    }
    assert list[i..] == list;
  }

  /** The append loop of the merge: one entry per remaining key, in insertion order. */
  method AppendLeftover(msu: seq<Entry>, ou: Overlaps) returns (merged: seq<Entry>)
    requires Ordered(ou)
    ensures merged == msu + Appended(ou.order, ou.pages)
  {
    merged := msu;
    var keys := ou.order;
    var k := 0;
    while k < |keys|
      invariant 0 <= k <= |keys|
      invariant msu + Appended(keys, ou.pages) == merged + Appended(keys[k..], ou.pages)
    {
      assert keys[k..][1..] == keys[k + 1..];
      var u := keys[k];
      var e := Entry(u, |ou.pages[u]|);
      assert (merged + [e]) + Appended(keys[k + 1..], ou.pages) == merged + ([e] + Appended(keys[k + 1..], ou.pages));
      merged := merged + [e];
      k := k + 1;
    }
    assert keys[k..] == [];
  }

  /** The update of the overlap list: bump existing entries backwards, then append the rest. */
  method MergeOverlaps(list: seq<Entry>, o: Overlaps) returns (merged: seq<Entry>)
    requires Ordered(o)
    ensures merged == Merged(list, o)
  {
    var msu, ou := BumpExisting(list, o);
    WithoutOrdered(o, Neighbors(list));
    merged := AppendLeftover(msu, ou);
  }

  /** Sum of the overlaps recorded for neighbour `u`. */
  function Total(l: seq<Entry>, u: string): int
  {
    if l == [] then 0 else (if l[0].neighbor == u then l[0].overlap else 0) + Total(l[1..], u)
  }

  lemma {:induction false} TotalConcat(a: seq<Entry>, b: seq<Entry>, u: string)
    ensures Total(a + b, u) == Total(a, u) + Total(b, u)
  {
    if a == [] {
      assert a + b == b;
    } else {
      assert (a + b)[1..] == a[1..] + b;
      TotalConcat(a[1..], b, u);
    }
  }

  lemma {:induction false} TotalAbsent(l: seq<Entry>, u: string)
    requires u !in Neighbors(l)
    ensures Total(l, u) == 0
  {
    if l != [] {
      assert Neighbors(l[1..]) <= Neighbors(l) by {
        forall v | v in Neighbors(l[1..]) ensures v in Neighbors(l) {
          var j :| 0 <= j < |l[1..]| && l[1..][j].neighbor == v;
          assert l[j + 1] == l[1..][j];
        }
      }
      assert l[0].neighbor in Neighbors(l);
      TotalAbsent(l[1..], u);
    }
  }

  lemma NamesAgree(a: seq<Entry>, b: seq<Entry>)
    requires |a| == |b| && forall i :: 0 <= i < |a| ==> a[i].neighbor == b[i].neighbor
    ensures Neighbors(a) == Neighbors(b)
  {
    forall u | u in Neighbors(a) ensures u in Neighbors(b) {
      var i :| 0 <= i < |a| && a[i].neighbor == u;
      assert b[i].neighbor == u;
    }
    forall u | u in Neighbors(b) ensures u in Neighbors(a) {
      var i :| 0 <= i < |b| && b[i].neighbor == u;
      assert a[i].neighbor == u;
    }
  }

  /** The bump never changes a neighbour name. */
  lemma BumpedNames(l: seq<Entry>, o: Overlaps)
    ensures Neighbors(Bumped(l, o)) == Neighbors(l)
  {
    NamesAgree(Bumped(l, o), l);
  }

  lemma BumpedCons(l: seq<Entry>, o: Overlaps)
    requires l != []
    ensures Bumped(l, o) == [BumpAt(l, o, 0)] + Bumped(l[1..], o)
  {
    forall i | 1 <= i < |l| ensures BumpAt(l, o, i) == BumpAt(l[1..], o, i - 1) {
      assert l[i + 1..] == l[1..][i..];
    }
  }

  /** The bump adds a discovered neighbour's count exactly once, at its last entry. */
  lemma {:induction false} BumpedTotal(l: seq<Entry>, o: Overlaps, u: string)
    ensures Total(Bumped(l, o), u)
      == Total(l, u) + (if u in o.pages && u in Neighbors(l) then |o.pages[u]| else 0)
    decreases |l|
  {
    if l != [] {
      BumpedCons(l, o);
      BumpedTotal(l[1..], o, u);
      NeighborsSplit(l, 0);
      assert l[0..] == l;
      assert Bumped(l, o)[1..] == Bumped(l[1..], o);
      if l[0].neighbor == u && u !in Neighbors(l[1..]) {
        TotalAbsent(l[1..], u);
        BumpedNames(l[1..], o);
        TotalAbsent(Bumped(l[1..], o), u);
      }
    }
  }

  lemma {:induction false} AppendedTotal(keys: seq<string>, pages: map<string, set<int>>, u: string)
    requires forall v :: v in keys ==> v in pages
    requires Distinct(keys)
    ensures Total(Appended(keys, pages), u) == if u in keys then |pages[u]| else 0
  {
    if keys != [] {
      assert Distinct(keys[1..]) by {
        assert forall i :: 0 <= i < |keys[1..]| ==> keys[1..][i] == keys[i + 1];
      }
      AppendedTotal(keys[1..], pages, u);
      if keys[0] == u {
        assert u !in keys[1..] by {
          assert forall i :: 0 <= i < |keys[1..]| ==> keys[1..][i] == keys[i + 1];
        }
      }
    }
  }

  /**
   * Merging credits each discovered neighbour with its new-page count
   * exactly once, whether it is bumped in place or appended; every other
   * neighbour's total is unchanged.
   */
  lemma MergeTotal(l: seq<Entry>, o: Overlaps, u: string)
    requires Ordered(o)
    ensures Total(Merged(l, o), u) == Total(l, u) + (if u in o.pages then |o.pages[u]| else 0)
  {
    var rest := Leftover(l, o);
    WithoutOrdered(o, Neighbors(l));
    TotalConcat(Bumped(l, o), Appended(rest.order, rest.pages), u);
    BumpedTotal(l, o, u);
    AppendedTotal(rest.order, rest.pages, u);
  }

  /** Two merges for the same neighbour add up: c1 then c2 new pages total c1 + c2. */
  lemma MergeAdditive(l: seq<Entry>, o1: Overlaps, o2: Overlaps, u: string)
    requires Ordered(o1) && Ordered(o2)
    requires u in o1.pages && u in o2.pages
    ensures Total(Merged(Merged(l, o1), o2), u) == Total(l, u) + |o1.pages[u]| + |o2.pages[u]|
  {
    MergeTotal(l, o1, u);
    MergeTotal(Merged(l, o1), o2, u);
  }

  lemma {:induction false} AppendedNames(keys: seq<string>, pages: map<string, set<int>>)
    requires forall v :: v in keys ==> v in pages
    ensures |Appended(keys, pages)| == |keys|
    ensures forall i :: 0 <= i < |keys| ==> Appended(keys, pages)[i] == Entry(keys[i], |pages[keys[i]]|)
  {
    if keys != [] {
      AppendedNames(keys[1..], pages);
    }
  }

  /**
   * The shape of a merge: existing positions keep their neighbour and gain
   * the new-page count only at the last entry naming a discovered
   * neighbour; after them come the discoveries no entry names, in
   * discovery order, each with its page count.
   */
  lemma MergeShape(l: seq<Entry>, o: Overlaps)
    requires Ordered(o)
    ensures var m, rest := Merged(l, o), Leftover(l, o);
      && |m| == |l| + |rest.order|
      && (forall i :: 0 <= i < |l| ==>
            m[i] == (if l[i].neighbor in o.pages && (forall j :: i < j < |l| ==> l[j].neighbor != l[i].neighbor)
                     then Entry(l[i].neighbor, l[i].overlap + |o.pages[l[i].neighbor]|)
                     else l[i]))
      && (forall i :: 0 <= i < |rest.order| ==>
            rest.order[i] in o.pages && rest.order[i] !in Neighbors(l)
            && m[|l| + i] == Entry(rest.order[i], |o.pages[rest.order[i]]|))
  {
    var rest := Leftover(l, o);
    AppendedNames(rest.order, rest.pages);
    forall i | 0 <= i < |l|
      ensures l[i].neighbor in Neighbors(l[i + 1..]) <==> exists j :: i < j < |l| && l[j].neighbor == l[i].neighbor
    {
      if l[i].neighbor in Neighbors(l[i + 1..]) {
        var j :| 0 <= j < |l[i + 1..]| && l[i + 1..][j].neighbor == l[i].neighbor;
        assert l[i + 1 + j] == l[i + 1..][j];
      }
      if exists j :: i < j < |l| && l[j].neighbor == l[i].neighbor {
        var j :| i < j < |l| && l[j].neighbor == l[i].neighbor;
        assert l[i + 1..][j - i - 1] == l[j];
      }
    }
  }

  /** The names of a merge, position by position: the old names, then the leftover discoveries. */
  lemma MergedNamesAt(l: seq<Entry>, o: Overlaps)
    requires Ordered(o)
    ensures var m, rest := Merged(l, o), Leftover(l, o);
      && |m| == |l| + |rest.order|
      && (forall i :: 0 <= i < |l| ==> m[i].neighbor == l[i].neighbor)
      && (forall i :: 0 <= i < |rest.order| ==> m[|l| + i].neighbor == rest.order[i])
  {
    var rest := Leftover(l, o);
    var b, a := Bumped(l, o), Appended(rest.order, rest.pages);
    AppendedNames(rest.order, rest.pages);
    var m := Merged(l, o);
    assert m == b + a;
    forall i | 0 <= i < |l| ensures m[i].neighbor == l[i].neighbor {
      assert m[i] == b[i] == BumpAt(l, o, i);
    }
    forall i | 0 <= i < |rest.order| ensures m[|l| + i].neighbor == rest.order[i] {
      assert m[|l| + i] == a[i];
    }
  }

  /** A list without duplicate neighbours stays without them. */
  lemma MergeDistinct(l: seq<Entry>, o: Overlaps)
    requires Ordered(o) && DistinctNeighbors(l)
    ensures DistinctNeighbors(Merged(l, o))
  {
    var rest := Leftover(l, o);
    WithoutOrdered(o, Neighbors(l));
    MergedNamesAt(l, o);
    var m := Merged(l, o);
    forall i, j | 0 <= i < j < |m| ensures m[i].neighbor != m[j].neighbor {
      if j >= |l| && i < |l| {
        var u := rest.order[j - |l|];
        assert m[|l| + (j - |l|)].neighbor == u;
        assert u in rest.order && u !in Neighbors(l);
        assert l[i].neighbor in Neighbors(l);
      } else if i >= |l| {
        assert m[|l| + (i - |l|)].neighbor == rest.order[i - |l|];
        assert m[|l| + (j - |l|)].neighbor == rest.order[j - |l|];
      }
    }
  }

  // ---------------------------------------------------------------------
  // Two-key sort

  /** A neighbour's page count from the metadata; unknown neighbours count as 0. */
  function NumPages(np: map<string, int>, u: string): int
  {
    if u in np then np[u] else 0
  }

  /**
   * The sort key `(overlap, -num_pages)` under `reverse=True`: a higher
   * overlap comes first, and for equal overlaps a smaller page count.
   */
  predicate Outranks(np: map<string, int>, a: Entry, b: Entry)
  {
    a.overlap > b.overlap || (a.overlap == b.overlap && NumPages(np, a.neighbor) < NumPages(np, b.neighbor))
  }

  /** Equal sort keys. */
  predicate Ties(np: map<string, int>, a: Entry, b: Entry)
  {
    a.overlap == b.overlap && NumPages(np, a.neighbor) == NumPages(np, b.neighbor)
  }

  predicate SortedRanked(np: map<string, int>, s: seq<Entry>)
  {
    forall i, j :: 0 <= i < j < |s| ==> !Outranks(np, s[j], s[i])
  }

  /** Insert `x` after every entry it does not strictly outrank. */
  function Insert(np: map<string, int>, x: Entry, s: seq<Entry>): seq<Entry>
  {
    if s == [] then [x]
    else if Outranks(np, x, s[0]) then [x] + s
    else [s[0]] + Insert(np, x, s[1..])
  }

  /** A stable sort, descending by the key. */
  function SortRanked(np: map<string, int>, l: seq<Entry>): seq<Entry>
  {
    if l == [] then [] else Insert(np, l[|l| - 1], SortRanked(np, l[..|l| - 1]))
  }

  lemma {:induction false} InsertPerm(np: map<string, int>, x: Entry, s: seq<Entry>)
    ensures multiset(Insert(np, x, s)) == multiset(s) + multiset{x}
  {
    if s != [] && !Outranks(np, x, s[0]) {
      InsertPerm(np, x, s[1..]);
      assert s == [s[0]] + s[1..];
    }
  }

  lemma {:induction false} InsertSorted(np: map<string, int>, x: Entry, s: seq<Entry>)
    requires SortedRanked(np, s)
    ensures SortedRanked(np, Insert(np, x, s))
  {
    if s != [] && !Outranks(np, x, s[0]) {
      InsertSorted(np, x, s[1..]);
      InsertPerm(np, x, s[1..]);
      var t := Insert(np, x, s[1..]);
      forall j | 0 <= j < |t| ensures !Outranks(np, t[j], s[0]) {
        assert t[j] in multiset(t);
        assert t[j] == x || t[j] in multiset(s[1..]);
      }
    }
  }

  /** The sorted list is a permutation of its input, descending by the two-key order. */
  lemma {:induction false} SortRankedSpec(np: map<string, int>, l: seq<Entry>)
    ensures SortedRanked(np, SortRanked(np, l))
    ensures multiset(SortRanked(np, l)) == multiset(l)
    decreases |l|
  {
    if l != [] {
      var init := l[..|l| - 1];
      SortRankedSpec(np, init);
      InsertSorted(np, l[|l| - 1], SortRanked(np, init));
      InsertPerm(np, l[|l| - 1], SortRanked(np, init));
      SplitLast(l);
    }
  }

  /** The entries of `s` whose key equals that of `x`, in order. */
  function TieClass(np: map<string, int>, s: seq<Entry>, x: Entry): seq<Entry>
  {
    if s == [] then [] else (if Ties(np, s[0], x) then [s[0]] else []) + TieClass(np, s[1..], x)
  }

  lemma {:induction false} TieClassConcat(np: map<string, int>, a: seq<Entry>, b: seq<Entry>, x: Entry)
    ensures TieClass(np, a + b, x) == TieClass(np, a, x) + TieClass(np, b, x)
  {
    if a == [] {
      assert a + b == b;
    } else {
      assert (a + b)[1..] == a[1..] + b;
      TieClassConcat(np, a[1..], b, x);
    }
  }

  lemma {:induction false} TieClassNone(np: map<string, int>, s: seq<Entry>, x: Entry)
    requires forall i :: 0 <= i < |s| ==> !Ties(np, s[i], x)
    ensures TieClass(np, s, x) == []
  {
    if s != [] {
      TieClassNone(np, s[1..], x);
    }
  }

  lemma SortedTail(np: map<string, int>, s: seq<Entry>)
    requires SortedRanked(np, s) && s != []
    ensures SortedRanked(np, s[1..])
  {
    forall i, j | 0 <= i < j < |s[1..]| ensures !Outranks(np, s[1..][j], s[1..][i]) {
      assert s[1..][j] == s[j + 1] && s[1..][i] == s[i + 1];
    }
  }

  /** Inserting behind the head: the head's tie contribution comes first. */
  lemma InsertBehindTies(np: map<string, int>, x: Entry, s: seq<Entry>, y: Entry)
    requires s != [] && !Outranks(np, x, s[0])
    ensures var h := if Ties(np, s[0], y) then [s[0]] else [];
      && TieClass(np, Insert(np, x, s), y) == h + TieClass(np, Insert(np, x, s[1..]), y)
      && TieClass(np, s, y) == h + TieClass(np, s[1..], y)
  {
    var t := Insert(np, x, s[1..]);
    assert Insert(np, x, s) == [s[0]] + t;
    assert ([s[0]] + t)[1..] == t;
  }

  /** Inserting in front of a sorted list: nothing in the list ties with `x`. */
  lemma InsertFrontStable(np: map<string, int>, x: Entry, s: seq<Entry>, y: Entry)
    requires SortedRanked(np, s) && s != [] && Outranks(np, x, s[0])
    ensures TieClass(np, Insert(np, x, s), y)
      == TieClass(np, s, y) + (if Ties(np, x, y) then [x] else [])
  {
    var mine := if Ties(np, x, y) then [x] else [];
    assert Insert(np, x, s) == [x] + s;
    assert TieClass(np, [x] + s, y) == mine + TieClass(np, s, y) by {
      assert ([x] + s)[1..] == s;
    }
    if Ties(np, x, y) {
      forall i | 0 <= i < |s| ensures !Ties(np, s[i], y) {
        if i > 0 {
          assert !Outranks(np, s[i], s[0]);
        }
      }
      TieClassNone(np, s, y);
    }
  }

  lemma {:induction false} InsertStable(np: map<string, int>, x: Entry, s: seq<Entry>, y: Entry)
    requires SortedRanked(np, s)
    ensures TieClass(np, Insert(np, x, s), y)
      == TieClass(np, s, y) + (if Ties(np, x, y) then [x] else [])
  {
    var mine := if Ties(np, x, y) then [x] else [];
    if s == [] {
      assert TieClass(np, [x], y) == mine + TieClass(np, [], y);
    } else if Outranks(np, x, s[0]) {
      InsertFrontStable(np, x, s, y);
    } else {
      SortedTail(np, s);
      InsertStable(np, x, s[1..], y);
      InsertBehindTies(np, x, s, y);
    }
  }

  /** The sort is stable: entries with equal keys keep their merged order. */
  lemma {:induction false} SortRankedStable(np: map<string, int>, l: seq<Entry>, y: Entry)
    ensures TieClass(np, SortRanked(np, l), y) == TieClass(np, l, y)
    decreases |l|
  {
    if l != [] {
      var init, last := l[..|l| - 1], l[|l| - 1];
      SortRankedStable(np, init, y);
      SortRankedSpec(np, init);
      InsertStable(np, last, SortRanked(np, init), y);
      var tail := if Ties(np, last, y) then [last] else [];
      assert SortRanked(np, l) == Insert(np, last, SortRanked(np, init));
      assert TieClass(np, [last], y) == tail + TieClass(np, [], y) == tail;
      SplitLast(l);
      TieClassConcat(np, init, [last], y);
    }
  }

  // ---------------------------------------------------------------------
  // Cut

  /** The first index at or after `from` whose overlap is 1, or the length. */
  function FirstSingle(s: seq<Entry>, from: nat): (n: nat)
    requires from <= |s|
    ensures from <= n <= |s|
    ensures n < |s| ==> s[n].overlap == 1
    ensures forall i :: from <= i < n ==> s[i].overlap != 1
    decreases |s| - from
  {
    if from == |s| || s[from].overlap == 1 then from else FirstSingle(s, from + 1)
  }

  /** The length kept: a list longer than `limit` is cut at its first overlap-1 entry at or after `limit`. */
  function CutLength(s: seq<Entry>, limit: nat): nat
  {
    if |s| <= limit then |s| else FirstSingle(s, limit)
  }

  /**
   * The cut keeps a prefix of length at least `min(limit, |s|)`; it stops
   * short only at an overlap-1 entry at or after `limit`, and keeps every
   * entry with a larger overlap from `limit` on.
   */
  lemma CutSpec(s: seq<Entry>, limit: nat)
    ensures var n := CutLength(s, limit);
      && Min(limit, |s|) <= n <= |s|
      && (n < |s| ==> limit <= n && s[n].overlap == 1)
      && (forall i :: limit <= i < n ==> s[i].overlap != 1)
  {
  }

  /**
   * The cut splits a run of overlap-1 entries that begins before the bound:
   * with bound 2 and overlaps 2, 1, 1, 1, two entries are kept.
   */
  lemma CutSplitsRun()
    ensures var s := [Entry("a", 2), Entry("b", 1), Entry("c", 1), Entry("d", 1)];
      CutLength(s, 2) == 2 && s[1].overlap == 1 && s[2].overlap == 1
  {
  }

  /** The cut as a search with an early exit. */
  method Truncate(sorted: seq<Entry>, limit: nat) returns (kept: seq<Entry>)
    ensures kept == sorted[..CutLength(sorted, limit)]
  {
    kept := sorted;
    if |sorted| > limit {
      var cutAt := |sorted|;
      var i := 0;
      while i < |sorted| - limit
        invariant 0 <= i <= |sorted| - limit
        invariant cutAt == |sorted|
        invariant FirstSingle(sorted, limit) == FirstSingle(sorted, limit + i)
      {
        if sorted[limit + i].overlap == 1 {
          cutAt := limit + i;
          break;
        }
        i := i + 1;
      }
      kept := sorted[..cutAt];
    } else {
      assert sorted[..|sorted|] == sorted;
    }
  }

  /** The whole index update for one query: merge, sort, cut. */
  function Reranked(l: seq<Entry>, o: Overlaps, np: map<string, int>, limit: nat): seq<Entry>
    requires Ordered(o)
  {
    var sorted := SortRanked(np, Merged(l, o));
    sorted[..CutLength(sorted, limit)]
  }
}
