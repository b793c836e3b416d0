/**
 * Edit delta fetch: the fold the fetcher performs over the paged revision
 * listing of one user.  Pages are grouped by page id in arrival order,
 * edits and distinct pages are counted, the oldest/most recent timestamps
 * are widened, each revision is smeared into the temporal profile, and no
 * further batch is read once more than `limit` pages have been seen.
 *
 * Timestamps are integers (seconds); `day` and `hour` of each revision are
 * given with it, `day` being the day of the month the service passes on.
 */
module Fetch {
  import opened Common
  import opened Temporal

  datatype Revision = Revision(timestamp: int, day: int, hour: int)
  datatype PageEdits = PageEdits(pageid: int, revisions: seq<Revision>)

  /** One batch of the continued listing, or a failure while reading it. */
  datatype Response = Batch(pages: seq<PageEdits>) | Failure

  /** An insertion-ordered dictionary from page id to the timestamps seen on it. */
  datatype PageTouches = PageTouches(order: seq<int>, times: map<int, seq<int>>)

  ghost predicate Ordered(pt: PageTouches)
  {
    && (forall i, j :: 0 <= i < j < |pt.order| ==> pt.order[i] != pt.order[j])
    && (forall p :: p in pt.times <==> p in pt.order)
  }

  const NoTouches := PageTouches([], map[])

  /** The oldest and most recent edit timestamps known for a user. */
  datatype Span = Span(oldest: Option<int>, newest: Option<int>)

  predicate Consistent(s: Span)
  {
    && (s.oldest.None? <==> s.newest.None?)
    && (s.oldest.Some? ==> s.oldest.value <= s.newest.value)
  }

  /** Widen the span by one timestamp: both ends are set to it when nothing was known. */
  function Widen(s: Span, ts: int): (r: Span)
    requires Consistent(s)
    ensures Consistent(r)
  {
    if s.oldest.None? then Span(Some(ts), Some(ts))
    else Span(Some(Min(s.oldest.value, ts)), Some(Max(s.newest.value, ts)))
  }

  function WidenAll(s: Span, stamps: seq<int>): (r: Span)
    requires Consistent(s)
    ensures Consistent(r)
    decreases |stamps|
  {
    if stamps == [] then s else WidenAll(Widen(s, stamps[0]), stamps[1..])
  }

  /** Everything the fetch loop accumulates. */
  datatype Tally = Tally(pages: PageTouches, newEdits: int, newPages: int, span: Span, profile: Profile)

  ghost predicate Good(t: Tally)
  {
    Consistent(t.span) && WellShaped(t.profile)
  }

  /** The state the loop starts from. */
  function StartTally(span: Span, profile: Profile): (t: Tally)
    requires Consistent(span) && WellShaped(profile)
    ensures Good(t)
  {
    Tally(NoTouches, 0, 0, span, profile)
  }

  /** One revision: record its timestamp, smear one edit, count it, widen the span. */
  function AddRevision(t: Tally, pid: int, r: Revision, offsets: seq<int>): (u: Tally)
    requires Good(t) && pid in t.pages.times
    ensures Good(u)
  {
    t.(pages := t.pages.(times := t.pages.times[pid := t.pages.times[pid] + [r.timestamp]]),
       profile := Smear(t.profile, r.day, r.hour, 1, offsets),
       newEdits := t.newEdits + 1,
       span := Widen(t.span, r.timestamp))
  }

  function AddRevisions(t: Tally, pid: int, rs: seq<Revision>, offsets: seq<int>): (u: Tally)
    requires Good(t) && pid in t.pages.times
    ensures Good(u) && pid in u.pages.times
    decreases |rs|
  {
    if rs == [] then t else AddRevisions(AddRevision(t, pid, rs[0], offsets), pid, rs[1..], offsets)
  }

  /** A page id seen for the first time gets an empty list and counts as a new page. */
  function OpenPage(t: Tally, pid: int): (u: Tally)
    requires Good(t)
    ensures Good(u) && pid in u.pages.times
  {
    if pid in t.pages.times then t
    else t.(pages := PageTouches(t.pages.order + [pid], t.pages.times[pid := []]), newPages := t.newPages + 1)
  }

  function AddPage(t: Tally, p: PageEdits, offsets: seq<int>): (u: Tally)
    requires Good(t)
    ensures Good(u)
  {
    AddRevisions(OpenPage(t, p.pageid), p.pageid, p.revisions, offsets)
  }

  function AddPages(t: Tally, ps: seq<PageEdits>, offsets: seq<int>): (u: Tally)
    requires Good(t)
    ensures Good(u)
    decreases |ps|
  {
    if ps == [] then t else AddPages(AddPage(t, ps[0], offsets), ps[1..], offsets)
  }

  /** Result of the loop: the tally, how many batches were read whole, and whether reading failed. */
  datatype Outcome = Outcome(tally: Tally, consumed: nat, failed: bool)

  /**
   * The loop over batches: a failing batch ends the loop with a failure; a
   * batch after which more than `limit` pages are known ends it normally.
   */
  function Run(t: Tally, rs: seq<Response>, limit: int, offsets: seq<int>): (o: Outcome)
    requires Good(t)
    ensures Good(o.tally) && o.consumed <= |rs|
    decreases |rs|
  {
    if rs == [] then Outcome(t, 0, false)
    else match rs[0]
      case Failure => Outcome(t, 0, true)
      case Batch(ps) =>
        var t' := AddPages(t, ps, offsets);
        if |t'.pages.times| > limit then Outcome(t', 1, false)
        else var o := Run(t', rs[1..], limit, offsets); o.(consumed := o.consumed + 1)
  }

  // ---------------------------------------------------------------------
  // Reference definitions over the flattened input

  function Flatten(rs: seq<Response>): seq<PageEdits>
  {
    if rs == [] then [] else (if rs[0].Batch? then rs[0].pages else []) + Flatten(rs[1..])
  }

  function PageIds(ps: seq<PageEdits>): set<int>
  {
    if ps == [] then {} else {ps[0].pageid} + PageIds(ps[1..])
  }

  function Stamps(rs: seq<Revision>): seq<int>
  {
    if rs == [] then [] else [rs[0].timestamp] + Stamps(rs[1..])
  }

  /** All timestamps recorded on page `pid`, in arrival order. */
  function TimesOn(ps: seq<PageEdits>, pid: int): seq<int>
  {
    if ps == [] then []
    else (if ps[0].pageid == pid then Stamps(ps[0].revisions) else []) + TimesOn(ps[1..], pid)
  }

  function Revisions(ps: seq<PageEdits>): seq<Revision>
  {
    if ps == [] then [] else ps[0].revisions + Revisions(ps[1..])
  }

  function SmearAll(p: Profile, rs: seq<Revision>, offsets: seq<int>): (r: Profile)
    requires WellShaped(p)
    ensures WellShaped(r)
    decreases |rs|
  {
    if rs == [] then p else SmearAll(Smear(p, rs[0].day, rs[0].hour, 1, offsets), rs[1..], offsets)
  }

  /** The page ids of `ps` not in `seen`, each once, in the order they first arrive. */
  function FirstIds(seen: set<int>, ps: seq<PageEdits>): seq<int>
    decreases |ps|
  {
    if ps == [] then []
    else if ps[0].pageid in seen then FirstIds(seen, ps[1..])
    else [ps[0].pageid] + FirstIds(seen + {ps[0].pageid}, ps[1..])
  }

  function Lookup(m: map<int, seq<int>>, pid: int): seq<int>
  {
    if pid in m then m[pid] else []
  }

  // ---------------------------------------------------------------------
  // Lemmas

  lemma {:induction false} StampsConcat(a: seq<Revision>, b: seq<Revision>)
    ensures Stamps(a + b) == Stamps(a) + Stamps(b)
  {
    if a == [] {
      assert a + b == b;
    } else {
      assert (a + b)[1..] == a[1..] + b;
      StampsConcat(a[1..], b);
    }
  }

  lemma {:induction false} SmearAllConcat(p: Profile, a: seq<Revision>, b: seq<Revision>, offsets: seq<int>)
    requires WellShaped(p)
    ensures SmearAll(p, a + b, offsets) == SmearAll(SmearAll(p, a, offsets), b, offsets)
    decreases |a|
  {
    if a == [] {
      assert a + b == b;
    } else {
      assert (a + b)[1..] == a[1..] + b;
      SmearAllConcat(Smear(p, a[0].day, a[0].hour, 1, offsets), a[1..], b, offsets);
    }
  }

  lemma {:induction false} WidenAllConcat(s: Span, a: seq<int>, b: seq<int>)
    requires Consistent(s)
    ensures WidenAll(s, a + b) == WidenAll(WidenAll(s, a), b)
    decreases |a|
  {
    if a == [] {
      assert a + b == b;
    } else {
      assert (a + b)[1..] == a[1..] + b;
      WidenAllConcat(Widen(s, a[0]), a[1..], b);
    }
  }

  /** Folding the revisions of one page appends their timestamps to its list and leaves the rest of the map alone. */
  lemma {:induction false} AddRevisionsPages(t: Tally, pid: int, rs: seq<Revision>, offsets: seq<int>)
    requires Good(t) && pid in t.pages.times
    ensures var u := AddRevisions(t, pid, rs, offsets);
      && u.pages.order == t.pages.order
      && u.pages.times == t.pages.times[pid := t.pages.times[pid] + Stamps(rs)]
    decreases |rs|
  {
    if rs == [] {
      assert t.pages.times[pid] + [] == t.pages.times[pid];
      assert t.pages.times[pid := t.pages.times[pid] + []] == t.pages.times;
    } else {
      var t1 := AddRevision(t, pid, rs[0], offsets);
      AddRevisionsPages(t1, pid, rs[1..], offsets);
      assert Stamps(rs) == [rs[0].timestamp] + Stamps(rs[1..]);
      assert t1.pages.times[pid] + Stamps(rs[1..]) == t.pages.times[pid] + Stamps(rs);
      assert AddRevisions(t, pid, rs, offsets) == AddRevisions(t1, pid, rs[1..], offsets);
    }
  }

  /** Folding the revisions of one page counts each, widens the span by each and smears each. */
  lemma {:induction false} AddRevisionsTotals(t: Tally, pid: int, rs: seq<Revision>, offsets: seq<int>)
    requires Good(t) && pid in t.pages.times
    ensures var u := AddRevisions(t, pid, rs, offsets);
      && u.newEdits == t.newEdits + |rs|
      && u.newPages == t.newPages
      && u.span == WidenAll(t.span, Stamps(rs))
      && u.profile == SmearAll(t.profile, rs, offsets)
    decreases |rs|
  {
    if rs != [] {
      var t1 := AddRevision(t, pid, rs[0], offsets);
      AddRevisionsTotals(t1, pid, rs[1..], offsets);
      assert Stamps(rs) == [rs[0].timestamp] + Stamps(rs[1..]);
      assert AddRevisions(t, pid, rs, offsets) == AddRevisions(t1, pid, rs[1..], offsets);
    }
  }

  /** Folding the revisions of one page: its list grows by their timestamps, nothing else in the map changes. */
  lemma AddRevisionsSpec(t: Tally, pid: int, rs: seq<Revision>, offsets: seq<int>)
    requires Good(t) && pid in t.pages.times
    ensures var u := AddRevisions(t, pid, rs, offsets);
      && u.pages.order == t.pages.order
      && u.pages.times == t.pages.times[pid := t.pages.times[pid] + Stamps(rs)]
      && u.newEdits == t.newEdits + |rs|
      && u.newPages == t.newPages
      && u.span == WidenAll(t.span, Stamps(rs))
      && u.profile == SmearAll(t.profile, rs, offsets)
  {
    AddRevisionsPages(t, pid, rs, offsets);
    AddRevisionsTotals(t, pid, rs, offsets);
  }

  /** One page appends its timestamps to its own list and leaves the other lists alone. */
  lemma AddPageLookup(t: Tally, p: PageEdits, offsets: seq<int>, pid: int)
    requires Good(t)
    ensures AddPage(t, p, offsets).pages.times.Keys == t.pages.times.Keys + {p.pageid}
    ensures Lookup(AddPage(t, p, offsets).pages.times, pid)
      == Lookup(t.pages.times, pid) + (if p.pageid == pid then Stamps(p.revisions) else [])
  {
    AddRevisionsSpec(OpenPage(t, p.pageid), p.pageid, p.revisions, offsets);
  }

  /** One page opens its key at the end of the order when it is new. */
  lemma AddPageOrder(t: Tally, p: PageEdits, offsets: seq<int>)
    requires Good(t)
    ensures var u := AddPage(t, p, offsets);
      && u.pages.order == t.pages.order + (if p.pageid in t.pages.times then [] else [p.pageid])
      && u.pages.times.Keys == t.pages.times.Keys + {p.pageid}
  {
    AddRevisionsPages(OpenPage(t, p.pageid), p.pageid, p.revisions, offsets);
    assert t.pages.order + [] == t.pages.order;
  }

  /** One page keeps the order duplicate-free and in step with the keys. */
  lemma AddPageOrdered(t: Tally, p: PageEdits, offsets: seq<int>)
    requires Good(t) && Ordered(t.pages)
    ensures Ordered(AddPage(t, p, offsets).pages)
  {
    var t0 := OpenPage(t, p.pageid);
    AddRevisionsPages(t0, p.pageid, p.revisions, offsets);
    if p.pageid !in t.pages.times {
      assert p.pageid !in t.pages.order;
      forall i, j | 0 <= i < j < |t0.pages.order| ensures t0.pages.order[i] != t0.pages.order[j] {
        if j == |t.pages.order| { assert t0.pages.order[i] == t.pages.order[i]; }
      }
    }
  }

  /** Folding a sequence of pages appends the page ids not yet known, in the order they first arrive. */
  lemma {:induction false} AddPagesOrder(t: Tally, ps: seq<PageEdits>, offsets: seq<int>)
    requires Good(t)
    ensures AddPages(t, ps, offsets).pages.order == t.pages.order + FirstIds(t.pages.times.Keys, ps)
    decreases |ps|
  {
    if ps == [] {
      assert t.pages.order + [] == t.pages.order;
    } else {
      var p := ps[0];
      var t1 := AddPage(t, p, offsets);
      AddPageOrder(t, p, offsets);
      AddPagesOrder(t1, ps[1..], offsets);
      assert AddPages(t1, ps[1..], offsets) == AddPages(t, ps, offsets);
      var rest := FirstIds(t1.pages.times.Keys, ps[1..]);
      if p.pageid in t.pages.times {
        assert t1.pages.times.Keys == t.pages.times.Keys;
        assert FirstIds(t.pages.times.Keys, ps) == rest;
      } else {
        assert FirstIds(t.pages.times.Keys, ps) == [p.pageid] + rest;
        assert (t.pages.order + [p.pageid]) + rest == t.pages.order + ([p.pageid] + rest);
      }
    }
  }

  /** Folding a sequence of pages keeps the order duplicate-free and in step with the keys. */
  lemma {:induction false} AddPagesOrdered(t: Tally, ps: seq<PageEdits>, offsets: seq<int>)
    requires Good(t) && Ordered(t.pages)
    ensures Ordered(AddPages(t, ps, offsets).pages)
    decreases |ps|
  {
    if ps != [] {
      AddPageOrdered(t, ps[0], offsets);
      AddPagesOrdered(AddPage(t, ps[0], offsets), ps[1..], offsets);
    }
  }

  /** Folding a sequence of pages adds their page ids to the keys. */
  lemma {:induction false} AddPagesKeys(t: Tally, ps: seq<PageEdits>, offsets: seq<int>)
    requires Good(t)
    ensures AddPages(t, ps, offsets).pages.times.Keys == t.pages.times.Keys + PageIds(ps)
    decreases |ps|
  {
    if ps != [] {
      var p := ps[0];
      var t1 := AddPage(t, p, offsets);
      AddPagesKeys(t1, ps[1..], offsets);
      AddPageLookup(t, p, offsets, p.pageid);
      assert AddPages(t1, ps[1..], offsets) == AddPages(t, ps, offsets);
      assert PageIds(ps) == {p.pageid} + PageIds(ps[1..]);
    }
  }

  /** Folding a sequence of pages appends to the list of `pid` the timestamps of its pages, in arrival order. */
  lemma {:induction false} AddPagesLookup(t: Tally, ps: seq<PageEdits>, offsets: seq<int>, pid: int)
    requires Good(t)
    ensures Lookup(AddPages(t, ps, offsets).pages.times, pid) == Lookup(t.pages.times, pid) + TimesOn(ps, pid)
    decreases |ps|
  {
    if ps != [] {
      var p := ps[0];
      var t1 := AddPage(t, p, offsets);
      AddPagesLookup(t1, ps[1..], offsets, pid);
      AddPageLookup(t, p, offsets, pid);
      assert AddPages(t1, ps[1..], offsets) == AddPages(t, ps, offsets);
      var here := if p.pageid == pid then Stamps(p.revisions) else [];
      var a, b := Lookup(t.pages.times, pid), TimesOn(ps[1..], pid);
      assert TimesOn(ps, pid) == here + b;
      assert (a + here) + b == a + (here + b);
    } else {
      assert Lookup(t.pages.times, pid) + [] == Lookup(t.pages.times, pid);
    }
  }

  /** Folding a sequence of pages: the keys grow by the page ids seen, each key holds its timestamps in arrival order. */
  lemma AddPagesTimes(t: Tally, ps: seq<PageEdits>, offsets: seq<int>)
    requires Good(t)
    ensures var u := AddPages(t, ps, offsets);
      && u.pages.times.Keys == t.pages.times.Keys + PageIds(ps)
      && (forall pid :: Lookup(u.pages.times, pid) == Lookup(t.pages.times, pid) + TimesOn(ps, pid))
  {
    AddPagesKeys(t, ps, offsets);
    forall pid ensures Lookup(AddPages(t, ps, offsets).pages.times, pid) == Lookup(t.pages.times, pid) + TimesOn(ps, pid) {
      AddPagesLookup(t, ps, offsets, pid);
    }
  }

  /** The page counter grows with the number of keys and the edit counter with the number of revisions. */
  lemma {:induction false} AddPagesCounts(t: Tally, ps: seq<PageEdits>, offsets: seq<int>)
    requires Good(t)
    ensures var u := AddPages(t, ps, offsets);
      && u.newPages - |u.pages.times| == t.newPages - |t.pages.times|
      && u.newEdits == t.newEdits + |Revisions(ps)|
    decreases |ps|
  {
    if ps != [] {
      var p := ps[0];
      var t0 := OpenPage(t, p.pageid);
      assert |t0.pages.times| - t0.newPages == |t.pages.times| - t.newPages;
      AddRevisionsSpec(t0, p.pageid, p.revisions, offsets);
      AddPagesCounts(AddPage(t, p, offsets), ps[1..], offsets);
    }
  }

  /** The span and the profile absorb every revision of the pages, in order. */
  lemma {:induction false} AddPagesAbsorbs(t: Tally, ps: seq<PageEdits>, offsets: seq<int>)
    requires Good(t)
    ensures var u := AddPages(t, ps, offsets);
      && u.span == WidenAll(t.span, Stamps(Revisions(ps)))
      && u.profile == SmearAll(t.profile, Revisions(ps), offsets)
    decreases |ps|
  {
    if ps != [] {
      var p := ps[0];
      AddRevisionsSpec(OpenPage(t, p.pageid), p.pageid, p.revisions, offsets);
      AddPagesAbsorbs(AddPage(t, p, offsets), ps[1..], offsets);
      StampsConcat(p.revisions, Revisions(ps[1..]));
      WidenAllConcat(t.span, Stamps(p.revisions), Stamps(Revisions(ps[1..])));
      SmearAllConcat(t.profile, p.revisions, Revisions(ps[1..]), offsets);
    }
  }

  lemma {:induction false} AddPagesConcat(t: Tally, a: seq<PageEdits>, b: seq<PageEdits>, offsets: seq<int>)
    requires Good(t)
    ensures AddPages(t, a + b, offsets) == AddPages(AddPages(t, a, offsets), b, offsets)
    decreases |a|
  {
    if a == [] {
      assert a + b == b;
    } else {
      assert (a + b)[1..] == a[1..] + b;
      AddPagesConcat(AddPage(t, a[0], offsets), a[1..], b, offsets);
    }
  }

  lemma FlattenStep(rs: seq<Response>, j: nat)
    requires 0 < j <= |rs| && rs[0].Batch?
    ensures Flatten(rs[..j]) == rs[0].pages + Flatten(rs[1..][..j - 1])
  {
    assert rs[..j][1..] == rs[1..][..j - 1];
  }

  /**
   * The loop reads a prefix of the batches: the tally is the fold over the
   * pages of that prefix; after every earlier batch at most `limit` pages were
   * known; a normal early stop happens only once more than `limit` are known;
   * a failure is exactly a failing batch right after the prefix, read while
   * at most `limit` pages were known.
   */
  lemma {:induction false} RunSpec(t: Tally, rs: seq<Response>, limit: int, offsets: seq<int>)
    requires Good(t)
    ensures var o := Run(t, rs, limit, offsets);
      && (forall j :: 0 <= j < o.consumed ==> rs[j].Batch?)
      && (o.failed ==> o.consumed < |rs| && rs[o.consumed].Failure?)
      && o.tally == AddPages(t, Flatten(rs[..o.consumed]), offsets)
      && (forall j :: 0 < j < o.consumed ==> |AddPages(t, Flatten(rs[..j]), offsets).pages.times| <= limit)
      && (!o.failed && o.consumed < |rs| ==> |o.tally.pages.times| > limit)
      && (o.failed && o.consumed > 0 ==> |o.tally.pages.times| <= limit)
    decreases |rs|
  {
    var o := Run(t, rs, limit, offsets);
    if rs == [] {
    } else if rs[0].Failure? {
    } else {
      var ps := rs[0].pages;
      var t' := AddPages(t, ps, offsets);
      FlattenStep(rs, 1);
      assert Flatten(rs[1..][..0]) == [];
      assert Flatten(rs[..1]) == ps;
      if |t'.pages.times| > limit {
      } else {
        var o' := Run(t', rs[1..], limit, offsets);
        RunSpec(t', rs[1..], limit, offsets);
        assert o == o'.(consumed := o'.consumed + 1);
        forall j | 0 < j <= o.consumed
          ensures AddPages(t, Flatten(rs[..j]), offsets) == AddPages(t', Flatten(rs[1..][..j - 1]), offsets)
        {
          FlattenStep(rs, j);
          AddPagesConcat(t, ps, Flatten(rs[1..][..j - 1]), offsets);
        }
        forall j | 0 <= j < o.consumed ensures rs[j].Batch? {
          if j > 0 { assert rs[j] == rs[1..][j - 1]; }
        }
      }
    }
  }

  /** Widening keeps the span consistent, only moves its ends outwards, and covers every timestamp seen. */
  lemma {:induction false} WidenAllSpec(s: Span, stamps: seq<int>)
    requires Consistent(s)
    ensures var r := WidenAll(s, stamps);
      && (stamps == [] ==> r == s)
      && (stamps != [] ==> r.oldest.Some?)
      && (s.oldest.Some? ==> r.oldest.value <= s.oldest.value && s.newest.value <= r.newest.value)
      && (forall i :: 0 <= i < |stamps| ==> r.oldest.value <= stamps[i] <= r.newest.value)
      && (r.oldest.Some? ==> (r.oldest.value in stamps || r.oldest == s.oldest))
      && (r.newest.Some? ==> (r.newest.value in stamps || r.newest == s.newest))
    decreases |stamps|
  {
    if stamps != [] {
      var s1 := Widen(s, stamps[0]);
      WidenAllSpec(s1, stamps[1..]);
      var r := WidenAll(s, stamps);
      forall i | 0 <= i < |stamps| ensures r.oldest.value <= stamps[i] <= r.newest.value {
        if i > 0 { assert stamps[i] == stamps[1..][i - 1]; }
      }
    }
  }

  /** Every revision smeared adds `|offsets|` to both histogram totals. */
  lemma {:induction false} SmearAllMass(p: Profile, rs: seq<Revision>, offsets: seq<int>)
    requires WellShaped(p)
    ensures Sum(SmearAll(p, rs, offsets).d) == Sum(p.d) + |offsets| * |rs|
    ensures Sum(SmearAll(p, rs, offsets).h) == Sum(p.h) + |offsets| * |rs|
    decreases |rs|
  {
    if rs != [] {
      SmearMass(p, rs[0].day, rs[0].hour, 1, offsets);
      SmearAllMass(Smear(p, rs[0].day, rs[0].hour, 1, offsets), rs[1..], offsets);
    }
  }

  lemma {:induction false} TimesOnAbsent(ps: seq<PageEdits>, pid: int)
    requires pid !in PageIds(ps)
    ensures TimesOn(ps, pid) == []
  {
    if ps != [] { TimesOnAbsent(ps[1..], pid); }
  }

  /**
   * From the starting tally of a fetch: the keys are exactly the page ids of
   * the batches read, each holding that page's timestamps in arrival order;
   * the key order lists each page id once, in the order it first arrived;
   * `newPages` is the number of keys and `newEdits` the number of revisions
   * read; the span and the profile absorb those revisions.
   */
  lemma FetchSpec(span: Span, profile: Profile, rs: seq<Response>, limit: int, offsets: seq<int>)
    requires Consistent(span) && WellShaped(profile)
    ensures var o := Run(StartTally(span, profile), rs, limit, offsets);
      var read := Flatten(rs[..o.consumed]);
      && o.tally.pages.times.Keys == PageIds(read)
      && Ordered(o.tally.pages)
      && o.tally.pages.order == FirstIds({}, read)
      && (forall pid :: Lookup(o.tally.pages.times, pid) == TimesOn(read, pid))
      && o.tally.newPages == |o.tally.pages.times|
      && o.tally.newEdits == |Revisions(read)|
      && o.tally.span == WidenAll(span, Stamps(Revisions(read)))
      && o.tally.profile == SmearAll(profile, Revisions(read), offsets)
  {
    var t := StartTally(span, profile);
    var o := Run(t, rs, limit, offsets);
    RunSpec(t, rs, limit, offsets);
    AddPagesTimes(t, Flatten(rs[..o.consumed]), offsets);
    AddPagesCounts(t, Flatten(rs[..o.consumed]), offsets);
    AddPagesAbsorbs(t, Flatten(rs[..o.consumed]), offsets);
    AddPagesOrder(t, Flatten(rs[..o.consumed]), offsets);
    AddPagesOrdered(t, Flatten(rs[..o.consumed]), offsets);
    assert t.pages.order + FirstIds({}, Flatten(rs[..o.consumed])) == FirstIds({}, Flatten(rs[..o.consumed]));
  }
}
