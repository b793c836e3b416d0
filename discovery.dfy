/**
 * Co-edit discovery: the positional window scan over each touched page's
 * revision authors, the insertion-ordered neighbour -> set-of-pages
 * dictionary it builds, the chunking of candidate names into group queries,
 * and the removal of candidates flagged as bots.
 *
 * The revision history of page `pids[j]` is given as `histories[j]`: the
 * batches of the continued listing, each a sequence of revision authors.
 * Windows never cross a batch boundary, as in the service.
 */
module Discovery {
  import opened Common

  /** One credit: `neighbor` is credited with page `pageid`. */
  datatype Credit = Credit(neighbor: string, pageid: int)

  /** Insertion-ordered dictionary from neighbour to the set of pages shared with the user. */
  datatype Overlaps = Overlaps(order: seq<string>, pages: map<string, set<int>>)

  ghost predicate Distinct(s: seq<string>)
  {
    forall i, j :: 0 <= i < j < |s| ==> s[i] != s[j]
  }

  ghost predicate Ordered(o: Overlaps)
  {
    Distinct(o.order) && forall u :: u in o.pages <==> u in o.order
  }

  const NoOverlaps := Overlaps([], map[])

  /** `overlapping_users[u].add(pid)`, creating an empty set for a new `u` first. */
  function Add(o: Overlaps, c: Credit): Overlaps
  {
    if c.neighbor in o.pages then o.(pages := o.pages[c.neighbor := o.pages[c.neighbor] + {c.pageid}])
    else Overlaps(o.order + [c.neighbor], o.pages[c.neighbor := {c.pageid}])
  }

  function AddAll(o: Overlaps, cs: seq<Credit>): Overlaps
    decreases |cs|
  {
    if cs == [] then o else AddAll(Add(o, cs[0]), cs[1..])
  }

  // ---------------------------------------------------------------------
  // The window scan, as the sequence of credits it issues

  /** The window around the user's revision at index `i` is `revs[max(0, i - k) : i + k]`: k before, k - 1 after. */
  function WindowStart(i: int, k: int): int { Max(0, i - k) }
  function WindowEnd(i: int, k: int, n: int): int { Min(i + k, n) }

  /** Credits for one window: every author but the user. */
  function WindowCredits(ws: seq<string>, user: string, pid: int): seq<Credit>
  {
    if ws == [] then []
    else (if ws[0] == user then [] else [Credit(ws[0], pid)]) + WindowCredits(ws[1..], user, pid)
  }

  /** Credits for the revision at index `i`: its window when the user made it, none otherwise. */
  function WindowAt(revs: seq<string>, user: string, k: nat, pid: int, i: nat): seq<Credit>
    requires i < |revs|
  {
    if revs[i] == user then WindowCredits(revs[WindowStart(i, k)..WindowEnd(i, k, |revs|)], user, pid) else []
  }

  /** Credits for the user's revisions at index `i` and later within one batch. */
  function ScanFrom(revs: seq<string>, user: string, k: nat, pid: int, i: nat): seq<Credit>
    decreases |revs| - i
  {
    if i >= |revs| then [] else WindowAt(revs, user, k, pid, i) + ScanFrom(revs, user, k, pid, i + 1)
  }

  function BatchCredits(batches: seq<seq<string>>, user: string, k: nat, pid: int): seq<Credit>
  {
    if batches == [] then [] else ScanFrom(batches[0], user, k, pid, 0) + BatchCredits(batches[1..], user, k, pid)
  }

  function PageCredits(pids: seq<int>, histories: seq<seq<seq<string>>>, user: string, k: nat): seq<Credit>
    requires |pids| == |histories|
  {
    if pids == [] then []
    else BatchCredits(histories[0], user, k, pids[0]) + PageCredits(pids[1..], histories[1..], user, k)
  }

  /** Index `p` lies in the window of the user's revision at index `i`. */
  predicate InWindow(revs: seq<string>, user: string, k: nat, i: int, p: int)
  {
    && 0 <= i < |revs| && revs[i] == user
    && WindowStart(i, k) <= p < WindowEnd(i, k, |revs|)
  }

  /** The reference relation: `u` appears within a window of the user on some batch of page `pid`. */
  ghost predicate CoEdited(pids: seq<int>, histories: seq<seq<seq<string>>>, user: string, k: nat, u: string, pid: int)
    requires |pids| == |histories|
  {
    && u != user
    && exists j, b, i, p ::
      && 0 <= j < |pids| && pids[j] == pid && 0 <= b < |histories[j]|
      && InWindow(histories[j][b], user, k, i, p) && histories[j][b][p] == u
  }

  // ---------------------------------------------------------------------
  // The dictionary

  lemma {:induction false} AddAllConcat(o: Overlaps, a: seq<Credit>, b: seq<Credit>)
    ensures AddAll(o, a + b) == AddAll(AddAll(o, a), b)
    decreases |a|
  {
    if a == [] {
      assert a + b == b;
    } else {
      assert (a + b)[1..] == a[1..] + b;
      AddAllConcat(Add(o, a[0]), a[1..], b);
    }
  }

  /**
   * The neighbours credited for the first time, in the order of their first
   * credit: each name of `cs` that is not in `known` and not named earlier.
   */
  function FirstNames(known: set<string>, cs: seq<Credit>): seq<string>
    decreases |cs|
  {
    if cs == [] then []
    else if cs[0].neighbor in known then FirstNames(known, cs[1..])
    else [cs[0].neighbor] + FirstNames(known + {cs[0].neighbor}, cs[1..])
  }

  /** Folding credits keeps the old keys in place and appends the new ones in first-credit order. */
  lemma {:induction false} AddAllOrder(o: Overlaps, cs: seq<Credit>)
    ensures AddAll(o, cs).order == o.order + FirstNames(o.pages.Keys, cs)
    decreases |cs|
  {
    if cs == [] {
      assert o.order + [] == o.order;
    } else {
      var c := cs[0];
      var o1 := Add(o, c);
      AddAllOrder(o1, cs[1..]);
      if c.neighbor in o.pages {
        assert o1.pages.Keys == o.pages.Keys;
        assert o1.order == o.order;
      } else {
        assert o1.pages.Keys == o.pages.Keys + {c.neighbor};
        assert o1.order + FirstNames(o1.pages.Keys, cs[1..])
            == o.order + ([c.neighbor] + FirstNames(o1.pages.Keys, cs[1..]));
      }
    }
  }

  /** One credit keeps the dictionary well ordered and adds exactly its own pair. */
  lemma AddSpec(o: Overlaps, c: Credit)
    requires Ordered(o)
    ensures var r := Add(o, c);
      && Ordered(r)
      && (forall u :: u in r.pages <==> u in o.pages || u == c.neighbor)
      && (forall u, pid :: u in r.pages && pid in r.pages[u] <==>
            (u in o.pages && pid in o.pages[u]) || Credit(u, pid) == c)
  {
  }

  /**
   * Folding credits into the dictionary keeps it well ordered, keeps the old
   * keys in place and appends the new ones in first-credit order; a neighbour
   * is a key exactly when it was one or some credit names it, and a page is
   * in its set exactly when it was or some credit pairs the two.
   */
  lemma {:induction false} AddAllSpec(o: Overlaps, cs: seq<Credit>)
    requires Ordered(o)
    ensures var r := AddAll(o, cs);
      && Ordered(r)
      && r.order == o.order + FirstNames(o.pages.Keys, cs)
      && (forall u :: u in r.pages <==> u in o.pages || exists c :: c in cs && c.neighbor == u)
      && (forall u, pid :: u in r.pages && pid in r.pages[u] <==>
            (u in o.pages && pid in o.pages[u]) || Credit(u, pid) in cs)
    decreases |cs|
  {
    AddAllOrder(o, cs);
    if cs != [] {
      var o1 := Add(o, cs[0]);
      AddSpec(o, cs[0]);
      AddAllSpec(o1, cs[1..]);
      var r := AddAll(o, cs);
      assert r == AddAll(o1, cs[1..]);
      forall u ensures u in r.pages <==> u in o.pages || exists c :: c in cs && c.neighbor == u {
        if c :| c in cs[1..] && c.neighbor == u {
          assert c in cs;
        }
        if c :| c in cs && c.neighbor == u {
          if c != cs[0] {
            assert c in cs[1..];
          }
        }
      }
      forall u, pid ensures u in r.pages && pid in r.pages[u] <==>
          (u in o.pages && pid in o.pages[u]) || Credit(u, pid) in cs
      {
        assert Credit(u, pid) in cs <==> Credit(u, pid) == cs[0] || Credit(u, pid) in cs[1..];
      }
    }
  }

  // ---------------------------------------------------------------------
  // Membership in the credit sequences, level by level

  lemma {:induction false} WindowCreditsMember(ws: seq<string>, user: string, pid: int, c: Credit)
    ensures c in WindowCredits(ws, user, pid) <==> c.pageid == pid && c.neighbor != user && c.neighbor in ws
  {
    if ws != [] {
      WindowCreditsMember(ws[1..], user, pid, c);
      if c.neighbor in ws && c.neighbor != ws[0] {
        assert c.neighbor in ws[1..];
      }
    }
  }

  lemma WindowMember(revs: seq<string>, user: string, k: nat, pid: int, i: nat, c: Credit)
    requires i < |revs| && revs[i] == user
    ensures c in WindowCredits(revs[WindowStart(i, k)..WindowEnd(i, k, |revs|)], user, pid) <==>
      c.pageid == pid && c.neighbor != user &&
      exists p :: InWindow(revs, user, k, i, p) && revs[p] == c.neighbor
  {
    var lo, hi := WindowStart(i, k), WindowEnd(i, k, |revs|);
    var ws := revs[lo..hi];
    WindowCreditsMember(ws, user, pid, c);
    if c.neighbor in ws {
      var q :| 0 <= q < |ws| && ws[q] == c.neighbor;
      assert InWindow(revs, user, k, i, lo + q);
    }
    if exists p :: InWindow(revs, user, k, i, p) && revs[p] == c.neighbor {
      var p :| InWindow(revs, user, k, i, p) && revs[p] == c.neighbor;
      assert ws[p - lo] == c.neighbor;
    }
  }

  lemma {:induction false} ScanFromMember(revs: seq<string>, user: string, k: nat, pid: int, i: nat, c: Credit)
    ensures c in ScanFrom(revs, user, k, pid, i) <==>
      c.pageid == pid && c.neighbor != user &&
      exists idx, p :: i <= idx && InWindow(revs, user, k, idx, p) && revs[p] == c.neighbor
    decreases |revs| - i
  {
    if i < |revs| {
      var here, later := WindowAt(revs, user, k, pid, i), ScanFrom(revs, user, k, pid, i + 1);
      assert ScanFrom(revs, user, k, pid, i) == here + later;
      ScanFromMember(revs, user, k, pid, i + 1, c);
      var nearHere := exists p :: InWindow(revs, user, k, i, p) && revs[p] == c.neighbor;
      if revs[i] == user {
        WindowMember(revs, user, k, pid, i, c);
      }
      assert c in here <==> c.pageid == pid && c.neighbor != user && nearHere;
      if idx, p :| i <= idx && InWindow(revs, user, k, idx, p) && revs[p] == c.neighbor {
        if idx == i {
          assert nearHere;
        } else {
          assert i + 1 <= idx;
        }
      }
    } else {
      assert forall idx, p :: i <= idx ==> !InWindow(revs, user, k, idx, p);
    }
  }

  lemma {:induction false} BatchCreditsMember(batches: seq<seq<string>>, user: string, k: nat, pid: int, c: Credit)
    ensures c in BatchCredits(batches, user, k, pid) <==>
      c.pageid == pid && c.neighbor != user &&
      exists b, i, p :: 0 <= b < |batches| && InWindow(batches[b], user, k, i, p) && batches[b][p] == c.neighbor
    decreases |batches|
  {
    if batches != [] {
      BatchCreditsMember(batches[1..], user, k, pid, c);
      ScanFromMember(batches[0], user, k, pid, 0, c);
      if exists b, i, p :: 0 <= b < |batches| && InWindow(batches[b], user, k, i, p) && batches[b][p] == c.neighbor {
        var b, i, p :| 0 <= b < |batches| && InWindow(batches[b], user, k, i, p) && batches[b][p] == c.neighbor;
        if b > 0 {
          assert batches[1..][b - 1] == batches[b];
        }
      }
      if exists b, i, p :: 0 <= b < |batches[1..]| && InWindow(batches[1..][b], user, k, i, p) && batches[1..][b][p] == c.neighbor {
        var b, i, p :| 0 <= b < |batches[1..]| && InWindow(batches[1..][b], user, k, i, p) && batches[1..][b][p] == c.neighbor;
        assert batches[1..][b] == batches[b + 1];
      }
    }
  }

  lemma {:induction false} PageCreditsMember(pids: seq<int>, histories: seq<seq<seq<string>>>, user: string, k: nat, c: Credit)
    requires |pids| == |histories|
    ensures c in PageCredits(pids, histories, user, k) <==> CoEdited(pids, histories, user, k, c.neighbor, c.pageid)
    decreases |pids|
  {
    if pids != [] {
      PageCreditsMember(pids[1..], histories[1..], user, k, c);
      BatchCreditsMember(histories[0], user, k, pids[0], c);
      var u, pid := c.neighbor, c.pageid;
      if CoEdited(pids, histories, user, k, u, pid) {
        var j, b, i, p :| && 0 <= j < |pids| && pids[j] == pid && 0 <= b < |histories[j]|
          && InWindow(histories[j][b], user, k, i, p) && histories[j][b][p] == u;
        if j > 0 {
          assert pids[1..][j - 1] == pid && histories[1..][j - 1] == histories[j];
        }
      }
      if CoEdited(pids[1..], histories[1..], user, k, u, pid) {
        var j, b, i, p :| && 0 <= j < |pids[1..]| && pids[1..][j] == pid && 0 <= b < |histories[1..][j]|
          && InWindow(histories[1..][j][b], user, k, i, p) && histories[1..][j][b][p] == u;
        assert pids[j + 1] == pid && histories[j + 1] == histories[1..][j];
      }
    }
  }

  /**
   * What discovery finds: a neighbour holds page `pid` exactly when it sits
   * within a window of the user's revisions on `pid`; the user is never
   * its own neighbour, every neighbour holds at least one page, and the
   * neighbours are ordered by their first credit.
   */
  lemma DiscoverySpec(pids: seq<int>, histories: seq<seq<seq<string>>>, user: string, k: nat)
    requires |pids| == |histories|
    ensures var r := AddAll(NoOverlaps, PageCredits(pids, histories, user, k));
      && Ordered(r)
      && r.order == FirstNames({}, PageCredits(pids, histories, user, k))
      && user !in r.pages
      && (forall u :: u in r.pages ==> r.pages[u] != {})
      && (forall u, pid :: u in r.pages && pid in r.pages[u] <==> CoEdited(pids, histories, user, k, u, pid))
  {
    var cs := PageCredits(pids, histories, user, k);
    var r := AddAll(NoOverlaps, cs);
    AddAllSpec(NoOverlaps, cs);
    assert NoOverlaps.pages.Keys == {} && NoOverlaps.order + FirstNames({}, cs) == FirstNames({}, cs);
    forall c | c in cs ensures CoEdited(pids, histories, user, k, c.neighbor, c.pageid) {
      PageCreditsMember(pids, histories, user, k, c);
    }
    forall u, pid ensures u in r.pages && pid in r.pages[u] <==> CoEdited(pids, histories, user, k, u, pid) {
      PageCreditsMember(pids, histories, user, k, Credit(u, pid));
    }
    forall u | u in r.pages ensures r.pages[u] != {} {
      var c :| c in cs && c.neighbor == u;
      assert c == Credit(u, c.pageid);
      assert c.pageid in r.pages[u];
    }
  }

  /** Folding a window's credits: first the author at `p`, then the rest. */
  lemma WindowStep(r: Overlaps, revs: seq<string>, p: nat, hi: nat, user: string, pid: int)
    requires p < hi <= |revs|
    ensures AddAll(r, WindowCredits(revs[p..hi], user, pid))
      == AddAll(if revs[p] == user then r else Add(r, Credit(revs[p], pid)), WindowCredits(revs[p + 1..hi], user, pid))
  {
    var rest := WindowCredits(revs[p + 1..hi], user, pid);
    assert revs[p..hi][1..] == revs[p + 1..hi];
    if revs[p] == user {
      assert WindowCredits(revs[p..hi], user, pid) == [] + rest == rest;
    } else {
      assert WindowCredits(revs[p..hi], user, pid) == [Credit(revs[p], pid)] + rest;
      AddAllConcat(r, [Credit(revs[p], pid)], rest);
      assert AddAll(r, [Credit(revs[p], pid)]) == AddAll(Add(r, Credit(revs[p], pid)), []);
    }
  }

  /** Credit every author but the user in `revs[lo:hi]` with page `pid`. */
  method CreditWindow(found: Overlaps, revs: seq<string>, lo: nat, hi: nat, user: string, pid: int)
    returns (r: Overlaps)
    requires lo <= hi <= |revs|
    ensures r == AddAll(found, WindowCredits(revs[lo..hi], user, pid))
  {
    r := found;
    var p := lo;
    ghost var total := AddAll(found, WindowCredits(revs[lo..hi], user, pid));
    while p < hi
      invariant lo <= p <= hi
      invariant total == AddAll(r, WindowCredits(revs[p..hi], user, pid))
    {
      var u := revs[p];
      WindowStep(r, revs, p, hi, user, pid);
      if u != user {
        ghost var before := r;
        if u !in r.pages {
          r := Overlaps(r.order + [u], r.pages[u := {}]);
        }
        r := r.(pages := r.pages[u := r.pages[u] + {pid}]);
        assert r == Add(before, Credit(u, pid)) by {
          if u !in before.pages {
            assert {} + {pid} == {pid};
          }
        }
      }
      p := p + 1;
    }
    assert revs[p..hi] == [];
  }

  /** Folding the credits from index `i` on: first the window at `i`, then the rest. */
  lemma ScanStep(r: Overlaps, revs: seq<string>, user: string, k: nat, pid: int, i: nat)
    requires i < |revs|
    ensures AddAll(r, ScanFrom(revs, user, k, pid, i))
      == AddAll(AddAll(r, WindowAt(revs, user, k, pid, i)), ScanFrom(revs, user, k, pid, i + 1))
  {
    AddAllConcat(r, WindowAt(revs, user, k, pid, i), ScanFrom(revs, user, k, pid, i + 1));
  }

  /** The revision at `idx`: when the user made it, credit its window. */
  method CreditRevision(found: Overlaps, revs: seq<string>, user: string, k: nat, pid: int, idx: nat)
    returns (r: Overlaps)
    requires idx < |revs|
    ensures r == AddAll(found, WindowAt(revs, user, k, pid, idx))
  {
    if revs[idx] == user {
      r := CreditWindow(found, revs, WindowStart(idx, k), WindowEnd(idx, k, |revs|), user, pid);
    } else {
      r := found;
    }
  }

  /** One batch of a page's history: the window around every revision by the user. */
  method ScanBatch(found: Overlaps, revs: seq<string>, user: string, k: nat, pid: int) returns (r: Overlaps)
    ensures r == AddAll(found, ScanFrom(revs, user, k, pid, 0))
  {
    r := found;
    var idx := 0;
    ghost var total := AddAll(found, ScanFrom(revs, user, k, pid, 0));
    while idx < |revs|
      invariant 0 <= idx <= |revs|
      invariant total == AddAll(r, ScanFrom(revs, user, k, pid, idx))
    {
      ScanStep(r, revs, user, k, pid, idx);
      r := CreditRevision(r, revs, user, k, pid, idx);
      idx := idx + 1;
    }
    assert ScanFrom(revs, user, k, pid, idx) == [];
  }

  /**
   * The scan over the touched pages, their batches, the user's positions in
   * each batch and the window around each position.
   */
  method DiscoverCoeditors(user: string, k: nat, pids: seq<int>, histories: seq<seq<seq<string>>>)
    returns (found: Overlaps)
    requires |pids| == |histories|
    ensures found == AddAll(NoOverlaps, PageCredits(pids, histories, user, k))
  {
    found := NoOverlaps;
    var j := 0;
    while j < |pids|
      invariant 0 <= j <= |pids|
      invariant AddAll(NoOverlaps, PageCredits(pids, histories, user, k))
             == AddAll(found, PageCredits(pids[j..], histories[j..], user, k))
    {
      var pid := pids[j];
      var batches := histories[j];
      ghost var atPage := found;
      var b := 0;
      while b < |batches|
        invariant 0 <= b <= |batches|
        invariant AddAll(atPage, BatchCredits(batches, user, k, pid))
               == AddAll(found, BatchCredits(batches[b..], user, k, pid))
      {
        ghost var atBatch := found;
        found := ScanBatch(found, batches[b], user, k, pid);
        assert batches[b..][1..] == batches[b + 1..];
        AddAllConcat(atBatch, ScanFrom(batches[b], user, k, pid, 0), BatchCredits(batches[b + 1..], user, k, pid));
        b := b + 1;
      }
      assert batches[b..] == [];
      assert pids[j..][1..] == pids[j + 1..] && histories[j..][1..] == histories[j + 1..];
      AddAllConcat(atPage, BatchCredits(batches, user, k, pid), PageCredits(pids[j + 1..], histories[j + 1..], user, k));
      j := j + 1;
    }
    assert pids[j..] == [];
  }

  // ---------------------------------------------------------------------
  // Chunking and the bot filter

  /** `chunkify`: consecutive slices of length `k`, the last one possibly shorter. */
  function Chunkify<T>(l: seq<T>, k: nat): seq<seq<T>>
    requires k > 0
    decreases |l|
  {
    if l == [] then [] else if |l| <= k then [l] else [l[..k]] + Chunkify(l[k..], k)
  }

  function Concat<T>(ss: seq<seq<T>>): seq<T>
  {
    if ss == [] then [] else ss[0] + Concat(ss[1..])
  }

  lemma {:induction false} ConcatAppend<T>(a: seq<seq<T>>, b: seq<seq<T>>)
    ensures Concat(a + b) == Concat(a) + Concat(b)
  {
    if a == [] {
      assert a + b == b;
    } else {
      assert (a + b)[1..] == a[1..] + b;
      ConcatAppend(a[1..], b);
    }
  }

  /** Concatenating the chunks gives back the list. */
  lemma {:induction false} ChunkifyConcat<T>(l: seq<T>, k: nat)
    requires k > 0
    ensures Concat(Chunkify(l, k)) == l
    decreases |l|
  {
    if l != [] && |l| > k {
      ChunkifyConcat(l[k..], k);
      assert l[..k] + l[k..] == l;
    } else if l != [] {
      assert Concat([l]) == l + Concat([l][1..]);
    }
  }

  /** There are ceil(|l| / k) chunks: the last chunk starts before the end and the chunks reach it. */
  lemma {:induction false} ChunkifyCount<T>(l: seq<T>, k: nat)
    requires k > 0
    ensures var n := |Chunkify(l, k)|;
      && (l == [] <==> n == 0)
      && (n > 0 ==> (n - 1) * k < |l| <= n * k)
    decreases |l|
  {
    if |l| > k {
      ChunkifyCount(l[k..], k);
      var n := |Chunkify(l[k..], k)|;
      assert (n + 1 - 1) * k == (n - 1) * k + k;
      assert (n + 1) * k == n * k + k;
    }
  }

  /** Chunk `i` starts at `i*k` and runs `k` elements or to the end. */
  lemma {:induction false} ChunkAt<T>(l: seq<T>, k: nat, i: nat)
    requires k > 0 && i < |Chunkify(l, k)|
    ensures i * k < |l| && Chunkify(l, k)[i] == l[i * k..Min(i * k + k, |l|)]
    decreases i
  {
    if i == 0 {
      if |l| <= k {
        assert l[0..Min(k, |l|)] == l;
      }
    } else {
      var rest := l[k..];
      assert |l| > k && Chunkify(l, k) == [l[..k]] + Chunkify(rest, k);
      ChunkAt(rest, k, i - 1);
      var a := (i - 1) * k;
      assert i * k == a + k;
      assert Min(a + k, |rest|) + k == Min(i * k + k, |l|);
      assert rest[a..Min(a + k, |rest|)] == l[i * k..Min(i * k + k, |l|)];
    }
  }

  /** Chunk `i` is `l[i*k : i*k + k]`. */
  lemma ChunkifySlices<T>(l: seq<T>, k: nat)
    requires k > 0
    ensures var cs := Chunkify(l, k);
      forall i :: 0 <= i < |cs| ==> i * k < |l| && cs[i] == l[i * k..Min(i * k + k, |l|)]
  {
    var cs := Chunkify(l, k);
    forall i | 0 <= i < |cs| ensures i * k < |l| && cs[i] == l[i * k..Min(i * k + k, |l|)] {
      ChunkAt(l, k, i);
    }
  }

  /** Every chunk is non-empty and at most `k` long; only the last may be shorter than `k`. */
  lemma ChunkifySizes<T>(l: seq<T>, k: nat)
    requires k > 0
    ensures var cs := Chunkify(l, k);
      && (forall i :: 0 <= i < |cs| ==> 0 < |cs[i]| <= k)
      && (forall i :: 0 <= i < |cs| - 1 ==> |cs[i]| == k)
  {
    var cs := Chunkify(l, k);
    ChunkifySlices(l, k);
    forall i | 0 <= i < |cs| - 1 ensures |cs[i]| == k {
      assert (i + 1) * k == i * k + k;
    }
  }

  predicate IsBot(groups: map<string, seq<string>>, u: string)
  {
    u in groups && "bot" in groups[u]
  }

  function FilterOut(s: seq<string>, gone: set<string>): (r: seq<string>)
    ensures forall u :: u in r <==> u in s && u !in gone
  {
    if s == [] then [] else (if s[0] in gone then [] else [s[0]]) + FilterOut(s[1..], gone)
  }

  /** The dictionary with the keys in `gone` popped; the others keep their order and pages. */
  function Without(o: Overlaps, gone: set<string>): Overlaps
  {
    Overlaps(FilterOut(o.order, gone), o.pages - gone)
  }

  lemma {:induction false} FilterOutNone(s: seq<string>)
    ensures FilterOut(s, {}) == s
  {
    if s != [] {
      FilterOutNone(s[1..]);
    }
  }

  lemma {:induction false} FilterOutTwice(s: seq<string>, a: set<string>, b: set<string>)
    ensures FilterOut(FilterOut(s, a), b) == FilterOut(s, a + b)
  {
    if s != [] {
      FilterOutTwice(s[1..], a, b);
      if s[0] !in a {
        assert FilterOut(s, a) == [s[0]] + FilterOut(s[1..], a);
        assert FilterOut(s, a)[1..] == FilterOut(s[1..], a);
      } else {
        assert FilterOut(s, a) == [] + FilterOut(s[1..], a) == FilterOut(s[1..], a);
        assert FilterOut(s, a + b) == [] + FilterOut(s[1..], a + b) == FilterOut(s[1..], a + b);
      }
    }
  }

  lemma {:induction false} FilterOutDistinct(s: seq<string>, gone: set<string>)
    requires Distinct(s)
    ensures Distinct(FilterOut(s, gone))
  {
    if s != [] {
      FilterOutDistinct(s[1..], gone);
      assert forall i :: 0 <= i < |s[1..]| ==> s[1..][i] == s[i + 1];
    }
  }

  lemma WithoutOrdered(o: Overlaps, gone: set<string>)
    requires Ordered(o)
    ensures Ordered(Without(o, gone))
  {
    FilterOutDistinct(o.order, gone);
  }

  /** The bots among the candidates that are not already known users. */
  function BotsToDrop(o: Overlaps, known: set<string>, groups: map<string, seq<string>>): set<string>
  {
    set u | u in o.pages && u !in known && IsBot(groups, u)
  }

  /** `overlapping_users.pop(name)` for a candidate whose groups contain "bot". */
  function DropIfBot(o: Overlaps, groups: map<string, seq<string>>, u: string): Overlaps
  {
    if IsBot(groups, u) then Without(o, {u}) else o
  }

  function DropBots(o: Overlaps, groups: map<string, seq<string>>, us: seq<string>): Overlaps
    decreases |us|
  {
    if us == [] then o else DropBots(DropIfBot(o, groups, us[0]), groups, us[1..])
  }

  lemma {:induction false} DropBotsConcat(o: Overlaps, groups: map<string, seq<string>>, a: seq<string>, b: seq<string>)
    ensures DropBots(o, groups, a + b) == DropBots(DropBots(o, groups, a), groups, b)
    decreases |a|
  {
    if a == [] {
      assert a + b == b;
    } else {
      assert (a + b)[1..] == a[1..] + b;
      DropBotsConcat(DropIfBot(o, groups, a[0]), groups, a[1..], b);
    }
  }

  lemma WithoutTwice(o: Overlaps, a: set<string>, b: set<string>)
    ensures Without(Without(o, a), b) == Without(o, a + b)
  {
    FilterOutTwice(o.order, a, b);
    assert o.pages - a - b == o.pages - (a + b);
  }

  lemma WithoutNone(o: Overlaps)
    ensures Without(o, {}) == o
  {
    FilterOutNone(o.order);
    assert o.pages - {} == o.pages;
  }

  /** The bots among `us`. */
  function BotsIn(groups: map<string, seq<string>>, us: seq<string>): set<string>
  {
    set u | u in us && IsBot(groups, u)
  }

  /** Popping the bots of `us` one at a time removes exactly the bots among `us`. */
  lemma {:induction false} DropBotsSpec(o: Overlaps, groups: map<string, seq<string>>, us: seq<string>)
    ensures DropBots(o, groups, us) == Without(o, BotsIn(groups, us))
    decreases |us|
  {
    if us == [] {
      WithoutNone(o);
      assert BotsIn(groups, us) == {};
    } else {
      var first: set<string> := if IsBot(groups, us[0]) then {us[0]} else {};
      var later := BotsIn(groups, us[1..]);
      var o1 := DropIfBot(o, groups, us[0]);
      if first == {} {
        assert o1 == o;
        WithoutNone(o);
      }
      assert o1 == Without(o, first);
      DropBotsSpec(o1, groups, us[1..]);
      WithoutTwice(o, first, later);
      assert BotsIn(groups, us) == first + later;
    }
  }

  /** One chunk of candidates: pop each one whose groups contain "bot". */
  method DropChunk(o: Overlaps, groups: map<string, seq<string>>, chunk: seq<string>) returns (r: Overlaps)
    ensures r == DropBots(o, groups, chunk)
  {
    r := o;
    var e := 0;
    ghost var total := DropBots(o, groups, chunk);
    while e < |chunk|
      invariant 0 <= e <= |chunk|
      invariant total == DropBots(r, groups, chunk[e..])
    {
      var u := chunk[e];
      assert chunk[e..][1..] == chunk[e + 1..];
      if IsBot(groups, u) {
        r := Overlaps(FilterOut(r.order, {u}), r.pages - {u});
      }
      e := e + 1;
    }
  }

  /**
   * Bot removal: the candidates not already known are looked up in chunks of
   * 50, and every one whose groups contain "bot" is popped; the remaining
   * neighbours keep their order and their pages.
   */
  method RemoveBots(o: Overlaps, known: set<string>, groups: map<string, seq<string>>) returns (r: Overlaps)
    requires Ordered(o)
    ensures Ordered(r)
    ensures r == Without(o, BotsToDrop(o, known, groups))
  {
    var newUsers := FilterOut(o.order, known);
    var chunks := Chunkify(newUsers, 50);
    ChunkifyConcat(newUsers, 50);
    r := o;
    var c := 0;
    ghost var total := DropBots(o, groups, newUsers);
    while c < |chunks|
      invariant 0 <= c <= |chunks|
      invariant total == DropBots(r, groups, Concat(chunks[c..]))
    {
      assert Concat(chunks[c..]) == chunks[c] + Concat(chunks[c + 1..]) by {
        assert chunks[c..][1..] == chunks[c + 1..];
      }
      DropBotsConcat(r, groups, chunks[c], Concat(chunks[c + 1..]));
      r := DropChunk(r, groups, chunks[c]);
      c := c + 1;
    }
    assert chunks[c..] == [];
    DropBotsSpec(o, groups, newUsers);
    assert BotsIn(groups, newUsers) == BotsToDrop(o, known, groups);
    WithoutOrdered(o, BotsToDrop(o, known, groups));
  }
}
