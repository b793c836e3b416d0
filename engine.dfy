/**
 * The per-process state of the similarity service and the operations that
 * change it: the user metadata, the co-edit index and the temporal
 * profiles, all keyed by user name.
 */
module Engine {
  import opened Common
  import opened Temporal
  import opened Query
  import Fetch
  import Discovery
  import Ranking
  import Baseline

  /** One user's metadata record; `span` holds the oldest and most recent edit. */
  datatype UserMeta = UserMeta(isAnon: bool, numEdits: int, numPages: int, span: Fetch.Span)

  /** The record a user not in the data is seeded with. */
  function NewUser(isAnon: bool): (m: UserMeta)
    ensures m.numEdits == 0 && m.numPages == 0 && m.span.oldest.None? && m.span.newest.None?
  {
    UserMeta(isAnon, 0, 0, Fetch.Span(None, None))
  }

  /** The counters and range after a successful fetch. */
  function Commit(m: UserMeta, t: Fetch.Tally): UserMeta
  {
    m.(numEdits := m.numEdits + t.newEdits, numPages := m.numPages + t.newPages, span := t.span)
  }

  /** Page counts of the known users, the secondary sort key. */
  function PageCounts(meta: map<string, UserMeta>): map<string, int>
  {
    map u | u in meta :: meta[u].numPages
  }

  /** The fetch start: one second after the last known edit, else the configured default. */
  function FetchStart(lastEdit: Option<int>, fallback: int): int
  {
    match lastEdit
    case Some(t) => t + 1
    case None => fallback
  }

  function AfterTemporal(td: map<string, Profile>, user: string, t: Fetch.Tally): map<string, Profile>
  {
    if t.newEdits > 0 then td[user := t.profile] else td
  }

  /** The state change of a user check, per table. */
  function SeededMeta(meta: map<string, UserMeta>, user: string, v: Verdict): map<string, UserMeta>
  {
    match v
    case SeedAnon => meta[user := NewUser(true)]
    case SeedRegistered => meta[user := NewUser(false)]
    case _ => meta
  }

  function SeededTemporal(td: map<string, Profile>, user: string, v: Verdict): map<string, Profile>
  {
    if v == SeedAnon || v == SeedRegistered then td[user := Zero()] else td
  }

  function SeededCoedit(cd: map<string, seq<Ranking.Entry>>, user: string, v: Verdict): map<string, seq<Ranking.Entry>>
  {
    if v == SeedAnon || v == SeedRegistered then cd[user := []] else cd
  }

  function ErrorOf(v: Verdict): Option<string>
  {
    if v.Reject? then Some(v.message) else None
  }

  /**
   * The neighbours discovered for `user`, with the bots among the
   * candidates not already known removed.
   */
  function Discovered(user: string, k: nat, pids: seq<int>, histories: seq<seq<seq<string>>>,
                      known: set<string>, groups: map<string, seq<string>>): (o: Discovery.Overlaps)
    requires |pids| == |histories|
    ensures Discovery.Ordered(o)
  {
    var found := Discovery.AddAll(Discovery.NoOverlaps, Discovery.PageCredits(pids, histories, user, k));
    Discovery.DiscoverySpec(pids, histories, user, k);
    Discovery.WithoutOrdered(found, Discovery.BotsToDrop(found, known, groups));
    Discovery.Without(found, Discovery.BotsToDrop(found, known, groups))
  }

  /** The fetch loop's locals hold the tally's fields. */
  predicate Mirrors(t: Fetch.Tally, pageids: Fetch.PageTouches, newEdits: int, newPages: int,
                    minTs: Option<int>, maxTs: Option<int>)
  {
    pageids == t.pages && newEdits == t.newEdits && newPages == t.newPages && t.span == Fetch.Span(minTs, maxTs)
  }

  /**
   * The temporal table during the fetch loop: untouched until the first
   * revision, afterwards holding the tally's profile for the user.
   */
  ghost predicate Tracks(td0: map<string, Profile>, td: map<string, Profile>, user: string, t: Fetch.Tally)
  {
    && t.newEdits >= 0
    && td == AfterTemporal(td0, user, t)
    && (t.newEdits == 0 ==> t.profile == Baseline.ProfileOf(td0, user))
  }

  /** One revision keeps the temporal table in step with the tally. */
  lemma TracksStep(td0: map<string, Profile>, td: map<string, Profile>, user: string, t: Fetch.Tally, pid: int,
                   r: Fetch.Revision, offsets: seq<int>)
    requires Fetch.Good(t) && pid in t.pages.times && Tracks(td0, td, user, t)
    ensures Baseline.ProfileOf(td, user) == t.profile
    ensures Tracks(td0, td[user := Smear(t.profile, r.day, r.hour, 1, offsets)], user, Fetch.AddRevision(t, pid, r, offsets))
  {
  }

  /** The loop over batches, one batch at a time. */
  lemma RunStep(t: Fetch.Tally, rs: seq<Fetch.Response>, limit: int, offsets: seq<int>)
    requires Fetch.Good(t) && rs != []
    ensures var o := Fetch.Run(t, rs, limit, offsets);
      && (rs[0].Failure? ==> o.tally == t && o.failed)
      && (rs[0].Batch? ==>
            var t' := Fetch.AddPages(t, rs[0].pages, offsets);
            && (|t'.pages.times| > limit ==> o.tally == t' && !o.failed)
            && (|t'.pages.times| <= limit ==>
                  o.tally == Fetch.Run(t', rs[1..], limit, offsets).tally
                  && o.failed == Fetch.Run(t', rs[1..], limit, offsets).failed))
  {
  }

  /** Every recorded range is consistent and every profile has 7 day and 24 hour buckets. */
  ghost predicate WellFormed(meta: map<string, UserMeta>, td: map<string, Profile>)
  {
    && (forall u :: u in meta ==> Fetch.Consistent(meta[u].span))
    && Baseline.AllShaped(td)
  }

  /** Seeding a user keeps the tables well formed. */
  lemma SeedWellFormed(meta: map<string, UserMeta>, td: map<string, Profile>, user: string, isAnon: bool)
    requires WellFormed(meta, td)
    ensures WellFormed(meta[user := NewUser(isAnon)], td[user := Zero()])
  {
  }

  /** Replacing a record by one with a consistent range keeps the tables well formed. */
  lemma CommitWellFormed(meta: map<string, UserMeta>, td: map<string, Profile>, user: string, m: UserMeta)
    requires WellFormed(meta, td) && Fetch.Consistent(m.span)
    ensures WellFormed(meta[user := m], td)
  {
  }

  /**
   * Discovery followed by bot removal: a neighbour is kept with page `pid`
   * exactly when it co-edited `pid` with the user and is not a bot that was
   * unknown before; every kept neighbour has a page, and the user is never
   * its own neighbour.
   */
  lemma DiscoveredSpec(user: string, k: nat, pids: seq<int>, histories: seq<seq<seq<string>>>,
                       known: set<string>, groups: map<string, seq<string>>)
    requires |pids| == |histories|
    ensures var o := Discovered(user, k, pids, histories, known, groups);
      && user !in o.pages
      && (forall u :: u in o.pages ==> o.pages[u] != {} && !(u !in known && Discovery.IsBot(groups, u)))
      && (forall u, pid :: u in o.pages && pid in o.pages[u] <==>
            Discovery.CoEdited(pids, histories, user, k, u, pid) && !(u !in known && Discovery.IsBot(groups, u)))
  {
    Discovery.DiscoverySpec(pids, histories, user, k);
  }

  /** Every entry of a merged list names an old neighbour or a discovered one. */
  lemma MergedNames(l: seq<Ranking.Entry>, o: Discovery.Overlaps)
    requires Discovery.Ordered(o)
    ensures forall e :: e in Ranking.Merged(l, o) ==> e.neighbor in Ranking.Neighbors(l) || e.neighbor in o.pages
  {
    var m := Ranking.Merged(l, o);
    Ranking.MergeShape(l, o);
    forall e | e in m ensures e.neighbor in Ranking.Neighbors(l) || e.neighbor in o.pages {
      var i :| 0 <= i < |m| && m[i] == e;
      if i < |l| {
        assert m[i].neighbor == l[i].neighbor;
        assert l[i].neighbor in Ranking.Neighbors(l);
      } else {
        var rest := Ranking.Leftover(l, o);
        assert m[|l| + (i - |l|)].neighbor == rest.order[i - |l|];
      }
    }
  }

  /** A prefix of a sorted list is sorted and is drawn from the list. */
  lemma SortedPrefix(np: map<string, int>, s: seq<Ranking.Entry>, n: nat)
    requires Ranking.SortedRanked(np, s) && n <= |s|
    ensures Ranking.SortedRanked(np, s[..n])
    ensures multiset(s[..n]) <= multiset(s)
  {
    assert s == s[..n] + s[n..];
    assert multiset(s) == multiset(s[..n]) + multiset(s[n..]);
  }

  /**
   * The stored list after an update is sorted by the two keys, is drawn
   * from the merged list without duplicating anything, keeps at least
   * min(limit, merged length) entries and everything when the merged list
   * fits, and names only old neighbours or discovered ones.
   */
  lemma CoeditUpdateSpec(l: seq<Ranking.Entry>, o: Discovery.Overlaps, np: map<string, int>, limit: nat)
    requires Discovery.Ordered(o)
    ensures var m, r := Ranking.Merged(l, o), Ranking.Reranked(l, o, np, limit);
      && Ranking.SortedRanked(np, r)
      && multiset(r) <= multiset(m)
      && Min(limit, |m|) <= |r| <= |m|
      && (|m| <= limit ==> multiset(r) == multiset(m))
      && (forall e :: e in r ==> e.neighbor in Ranking.Neighbors(l) || e.neighbor in o.pages)
  {
    var m := Ranking.Merged(l, o);
    var sorted := Ranking.SortRanked(np, m);
    Ranking.SortRankedSpec(np, m);
    assert |sorted| == |multiset(sorted)| == |m|;
    var n := Ranking.CutLength(sorted, limit);
    Ranking.CutSpec(sorted, limit);
    var r := sorted[..n];
    SortedPrefix(np, sorted, n);
    if |m| <= limit {
      assert r == sorted;
    }
    MergedNames(l, o);
    forall e | e in r ensures e.neighbor in Ranking.Neighbors(l) || e.neighbor in o.pages {
      assert e in multiset(r);
      assert e in multiset(m);
    }
  }

  /**
   * What the argument check ends with: an abort with an HTTP status, an
   * exception that escapes the request handler, or the checked arguments.
   */
  datatype ApiArgs =
    | Abort(status: int, reason: string)
    | Raised(exception: string)
    | Args(userText: string, k: int, followup: bool, error: Option<string>)

  class SimilarUsers {
    var userMetadata: map<string, UserMeta>
    var coeditData: map<string, seq<Ranking.Entry>>
    var temporalData: map<string, Profile>
    /** The hour offsets each edit is smeared over. */
    const offsets: seq<int>
    /** The default start of the revision listing. */
    const mostRecentRevTs: int

    ghost predicate Valid()
      reads this
    {
      WellFormed(userMetadata, temporalData)
    }

    constructor (offsets: seq<int>, mostRecentRevTs: int)
      ensures Valid()
      ensures this.offsets == offsets && this.mostRecentRevTs == mostRecentRevTs
      ensures userMetadata == map[] && coeditData == map[] && temporalData == map[]
    {
      this.offsets := offsets;
      this.mostRecentRevTs := mostRecentRevTs;
      userMetadata := map[];
      coeditData := map[];
      temporalData := map[];
    }

    /**
     * Add `numEdits` to the user's temporal profile once per offset,
     * creating a zero profile first when the user has none.
     */
    method UpdateTemporalData(user: string, day: int, hour: int, numEdits: int)
      requires Valid()
      modifies this
      ensures Valid()
      ensures temporalData
        == old(temporalData)[user := Smear(Baseline.ProfileOf(old(temporalData), user), day, hour, numEdits, offsets)]
      ensures userMetadata == old(userMetadata) && coeditData == old(coeditData)
    {
      if user !in temporalData {
        temporalData := temporalData[user := Zero()];
      }
      var p := temporalData[user];
      var i := 0;
      while i < |offsets|
        invariant 0 <= i <= |offsets| && WellShaped(p)
        invariant Smear(Baseline.ProfileOf(old(temporalData), user), day, hour, numEdits, offsets)
               == Smear(p, day, hour, numEdits, offsets[i..])
      {
        assert offsets[i..][1..] == offsets[i + 1..];
        var h := hour + offsets[i];
        var d := (day + h / HOURS) % DAYS;
        h := h % HOURS;
        p := Profile(p.d[d := p.d[d] + numEdits], p.h[h := p.h[h] + numEdits]);
        i := i + 1;
      }
      assert offsets[i..] == [];
      temporalData := temporalData[user := p];
    }

    /**
     * The revisions of one page, in order: each timestamp is appended to
     * the page's list, one edit is smeared into the temporal profile (kept
     * whatever happens later), the counter grows and the range widens.
     */
    method RecordRevisions(user: string, pid: int, revs: seq<Fetch.Revision>, ghost td0: map<string, Profile>,
                           ghost t: Fetch.Tally, pageids: Fetch.PageTouches, newEdits: int, newPages: int,
                           minTs: Option<int>, maxTs: Option<int>)
      returns (pageids': Fetch.PageTouches, newEdits': int, minTs': Option<int>, maxTs': Option<int>)
      requires Valid() && Fetch.Good(t) && pid in t.pages.times
      requires Mirrors(t, pageids, newEdits, newPages, minTs, maxTs) && Tracks(td0, temporalData, user, t)
      modifies this
      ensures Valid()
      ensures var u := Fetch.AddRevisions(t, pid, revs, offsets);
        Mirrors(u, pageids', newEdits', newPages, minTs', maxTs') && Tracks(td0, temporalData, user, u)
      ensures userMetadata == old(userMetadata) && coeditData == old(coeditData)
    {
      pageids', newEdits', minTs', maxTs' := pageids, newEdits, minTs, maxTs;
      ghost var u := t;
      var r := 0;
      while r < |revs|
        invariant 0 <= r <= |revs|
        invariant Valid() && Fetch.Good(u) && pid in u.pages.times
        invariant Mirrors(u, pageids', newEdits', newPages, minTs', maxTs') && Tracks(td0, temporalData, user, u)
        invariant Fetch.AddRevisions(t, pid, revs, offsets) == Fetch.AddRevisions(u, pid, revs[r..], offsets)
        invariant userMetadata == old(userMetadata) && coeditData == old(coeditData)
      {
        assert revs[r..][1..] == revs[r + 1..];
        var rev := revs[r];
        var ts := rev.timestamp;
        pageids' := pageids'.(times := pageids'.times[pid := pageids'.times[pid] + [ts]]);
        TracksStep(td0, temporalData, user, u, pid, rev, offsets);
        UpdateTemporalData(user, rev.day, rev.hour, 1);
        newEdits' := newEdits' + 1;
        if minTs'.None? {
          minTs' := Some(ts);
          maxTs' := Some(ts);
        } else {
          maxTs' := Some(Max(maxTs'.value, ts));
          minTs' := Some(Min(minTs'.value, ts));
        }
        u := Fetch.AddRevision(u, pid, rev, offsets);
        r := r + 1;
      }
      assert revs[r..] == [];
    }

    /** The pages of one batch: a page id seen for the first time opens an empty list. */
    method RecordBatch(user: string, ps: seq<Fetch.PageEdits>, ghost td0: map<string, Profile>, ghost t: Fetch.Tally,
                       pageids: Fetch.PageTouches, newEdits: int, newPages: int, minTs: Option<int>, maxTs: Option<int>)
      returns (pageids': Fetch.PageTouches, newEdits': int, newPages': int, minTs': Option<int>, maxTs': Option<int>)
      requires Valid() && Fetch.Good(t)
      requires Mirrors(t, pageids, newEdits, newPages, minTs, maxTs) && Tracks(td0, temporalData, user, t)
      modifies this
      ensures Valid()
      ensures var u := Fetch.AddPages(t, ps, offsets);
        Mirrors(u, pageids', newEdits', newPages', minTs', maxTs') && Tracks(td0, temporalData, user, u)
      ensures userMetadata == old(userMetadata) && coeditData == old(coeditData)
    {
      pageids', newEdits', newPages', minTs', maxTs' := pageids, newEdits, newPages, minTs, maxTs;
      ghost var u := t;
      var q := 0;
      while q < |ps|
        invariant 0 <= q <= |ps|
        invariant Valid() && Fetch.Good(u)
        invariant Mirrors(u, pageids', newEdits', newPages', minTs', maxTs') && Tracks(td0, temporalData, user, u)
        invariant Fetch.AddPages(t, ps, offsets) == Fetch.AddPages(u, ps[q..], offsets)
        invariant userMetadata == old(userMetadata) && coeditData == old(coeditData)
      {
        assert ps[q..][1..] == ps[q + 1..];
        var pid := ps[q].pageid;
        if pid !in pageids'.times {
          pageids' := Fetch.PageTouches(pageids'.order + [pid], pageids'.times[pid := []]);
          newPages' := newPages' + 1;
        }
        u := Fetch.OpenPage(u, pid);
        pageids', newEdits', minTs', maxTs' :=
          RecordRevisions(user, pid, ps[q].revisions, td0, u, pageids', newEdits', newPages', minTs', maxTs');
        u := Fetch.AddRevisions(u, pid, ps[q].revisions, offsets);
        q := q + 1;
      }
      assert ps[q..] == [];
    }

    /**
     * The loop over the listing's batches: stops on a failing batch, or
     * after a batch once more than `limit` pages are known.
     */
    method RecordListing(user: string, responses: seq<Fetch.Response>, limit: int, ghost td0: map<string, Profile>,
                         ghost t0: Fetch.Tally, minTs0: Option<int>, maxTs0: Option<int>)
      returns (pageids: Fetch.PageTouches, newEdits: int, newPages: int, minTs: Option<int>, maxTs: Option<int>,
               failed: bool)
      requires Valid() && Fetch.Good(t0)
      requires Mirrors(t0, Fetch.NoTouches, 0, 0, minTs0, maxTs0) && Tracks(td0, temporalData, user, t0)
      modifies this
      ensures Valid()
      ensures var o := Fetch.Run(t0, responses, limit, offsets);
        && failed == o.failed
        && Mirrors(o.tally, pageids, newEdits, newPages, minTs, maxTs) && Tracks(td0, temporalData, user, o.tally)
      ensures userMetadata == old(userMetadata) && coeditData == old(coeditData)
    {
      pageids, newEdits, newPages, minTs, maxTs := Fetch.NoTouches, 0, 0, minTs0, maxTs0;
      ghost var t := t0;
      ghost var o0 := Fetch.Run(t0, responses, limit, offsets);
      failed := false;
      var j := 0;
      while j < |responses|
        invariant 0 <= j <= |responses|
        invariant Valid() && Fetch.Good(t) && !failed
        invariant Mirrors(t, pageids, newEdits, newPages, minTs, maxTs) && Tracks(td0, temporalData, user, t)
        invariant userMetadata == old(userMetadata) && coeditData == old(coeditData)
        invariant o0.tally == Fetch.Run(t, responses[j..], limit, offsets).tally
        invariant o0.failed == Fetch.Run(t, responses[j..], limit, offsets).failed
      {
        RunStep(t, responses[j..], limit, offsets);
        assert responses[j..][0] == responses[j] && responses[j..][1..] == responses[j + 1..];
        if responses[j].Failure? {
          failed := true;
          break;
        }
        pageids, newEdits, newPages, minTs, maxTs :=
          RecordBatch(user, responses[j].pages, td0, t, pageids, newEdits, newPages, minTs, maxTs);
        t := Fetch.AddPages(t, responses[j].pages, offsets);
        if |pageids.times| > limit {
          break;
        }
        j := j + 1;
      }
      if j == |responses| {
        assert responses[j..] == [];
      }
    }

    /**
     * The edit delta fetch. The revision listing is given as its batches;
     * `Failure` stands for the listing raising while being read. Temporal
     * increments are made as revisions arrive and are kept on failure; the
     * metadata counters and range are committed only when the loop ends
     * without failure, and the grouped timestamps are returned.
     */
    method GetAdditionalEdits(user: string, lastEdit: Option<int>, responses: seq<Fetch.Response>, limit: int)
      returns (arvstart: int, result: Option<Fetch.PageTouches>)
      requires Valid() && user in userMetadata
      modifies this
      ensures Valid()
      ensures arvstart == FetchStart(lastEdit, mostRecentRevTs)
      ensures var o := Fetch.Run(Fetch.StartTally(old(userMetadata)[user].span, Baseline.ProfileOf(old(temporalData), user)),
                                 responses, limit, offsets);
        && result == (if o.failed then None else Some(o.tally.pages))
        && userMetadata == (if o.failed then old(userMetadata) else old(userMetadata)[user := Commit(old(userMetadata)[user], o.tally)])
        && temporalData == AfterTemporal(old(temporalData), user, o.tally)
      ensures coeditData == old(coeditData)
    {
      arvstart := if lastEdit.Some? then lastEdit.value + 1 else mostRecentRevTs;
      var minTs := userMetadata[user].span.oldest;
      var maxTs := userMetadata[user].span.newest;
      ghost var t0 := Fetch.StartTally(userMetadata[user].span, Baseline.ProfileOf(temporalData, user));
      var pageids, newEdits, newPages, failed;
      pageids, newEdits, newPages, minTs, maxTs, failed :=
        RecordListing(user, responses, limit, temporalData, t0, minTs, maxTs);
      if failed {
        result := None;
      } else {
        var m := userMetadata[user];
        var m' := m.(numEdits := m.numEdits + newEdits, numPages := m.numPages + newPages, span := Fetch.Span(minTs, maxTs));
        CommitWellFormed(userMetadata, temporalData, user, m');
        userMetadata := userMetadata[user := m'];
        result := Some(pageids);
      }
    }

    /**
     * The co-edit update for `user`: discovery over the touched pages'
     * histories (`pids` is the key order of the page dictionary the fetch
     * returned, which `Fetch.FetchSpec` gives as first-arrival order), bot removal (groups of the candidates not already known
     * are given as `groups`), the merge into the stored list, the two-key
     * sort, and the cut at `limit`. It first looks up the user's stored
     * list; a user without one (the older version loads the metadata and
     * the co-edit table from separate files) raises KeyError there.
     * `readFails` says that one of the reads (a page's revision listing or
     * a group query) raised. Either exception escapes before the stored
     * list is touched, so nothing changes.
     */
    method UpdateCoeditData(user: string, pids: seq<int>, histories: seq<seq<seq<string>>>, k: nat,
                            groups: map<string, seq<string>>, limit: nat, readFails: bool)
      returns (completed: bool)
      requires Valid() && |pids| == |histories|
      modifies this
      ensures Valid()
      ensures completed == (user in old(coeditData) && !readFails)
      ensures coeditData == if !completed then old(coeditData) else old(coeditData)[user :=
        Ranking.Reranked(old(coeditData)[user], Discovered(user, k, pids, histories, old(userMetadata).Keys, groups),
                         PageCounts(old(userMetadata)), limit)]
      ensures userMetadata == old(userMetadata) && temporalData == old(temporalData)
    {
      if user !in coeditData || readFails {
        return false;
      }
      var mostSimilar := coeditData[user];
      var overlapping := Discovery.DiscoverCoeditors(user, k, pids, histories);
      Discovery.DiscoverySpec(pids, histories, user, k);
      overlapping := Discovery.RemoveBots(overlapping, userMetadata.Keys, groups);
      var merged := Ranking.MergeOverlaps(mostSimilar, overlapping);
      var sorted := Ranking.SortRanked(PageCounts(userMetadata), merged);
      var kept := Ranking.Truncate(sorted, limit);
      coeditData := coeditData[user := kept];
      return true;
    }

    /** Seed a user: a zeroed metadata record, a zero profile and an empty co-edit list. */
    method Seed(user: string, isAnon: bool)
      requires Valid()
      modifies this
      ensures Valid()
      ensures userMetadata == old(userMetadata)[user := NewUser(isAnon)]
      ensures temporalData == old(temporalData)[user := Zero()]
      ensures coeditData == old(coeditData)[user := []]
    {
      SeedWellFormed(userMetadata, temporalData, user, isAnon);
      userMetadata := userMetadata[user := NewUser(isAnon)];
      temporalData := temporalData[user := Zero()];
      coeditData := coeditData[user := []];
    }

    /**
     * The check of a user: a known user passes; otherwise the probes decide
     * between an error message and seeding a zeroed record, profile and
     * empty co-edit list.
     */
    method CheckUserText(variant: Variant, user: string, probe: Probe) returns (error: Option<string>)
      requires Valid()
      modifies this
      ensures Valid()
      ensures var v := Classify(variant, user in old(userMetadata), user, probe);
        && error == ErrorOf(v)
        && userMetadata == SeededMeta(old(userMetadata), user, v)
        && temporalData == SeededTemporal(old(temporalData), user, v)
        && coeditData == SeededCoedit(old(coeditData), user, v)
    {
      ghost var v := Classify(variant, user in userMetadata, user, probe);
      if user in userMetadata {
        return None;
      }
      if probe.hasContribs {
        var account := probe.account;
        if account.missing {
          assert v == Reject(NoAccountMessage(user));
          return Some(NoAccountMessage(user));
        } else if account.invalid {
          assert v == SeedAnon;
          Seed(user, true);
          return None;
        } else if account.groups.Some? {
          if "bot" in account.groups.value {
            assert v == Reject(BotMessage(user));
            return Some(BotMessage(user));
          } else {
            assert v == SeedRegistered;
            Seed(user, false);
            return None;
          }
        }
        if variant == Legacy {
          assert v == Accept;
          return None;
        }
      }
      assert v == Reject(NoEditsMessage(user));
      return Some(NoEditsMessage(user));
    }

    /**
     * The API argument check. The current version aborts with status 422
     * on a missing or empty handle and on an empty `k`; the older one reads
     * an empty `k` as unparsable, and lower-cases a missing handle, which
     * raises AttributeError. The handle is normalised; an empty result is
     * reported, otherwise the user check runs on it.
     */
    method ValidateApiArgs(variant: Variant, usertext: Option<string>, k: KArg, followup: bool, probe: Probe)
      returns (r: ApiArgs)
      requires Valid()
      requires k.KGiven? && k.text == "" ==> k.parsed.None?
      modifies this
      ensures Valid()
      ensures variant == Current && (usertext.None? || usertext.value == "") ==> r == Abort(422, "No usertext provided")
      ensures variant == Current && usertext.Some? && usertext.value != "" && k.KGiven? && k.text == ""
        ==> r == Abort(422, "No k specified")
      ensures r.Abort? ==> variant == Current
      ensures r.Raised? <==> variant == Legacy && usertext.None?
      ensures r.Raised? ==> r.exception == "AttributeError"
      ensures r.Args? ==> usertext.Some?
      ensures r.Abort? || r.Raised? || (r.Args? && r.userText == []) ==>
        userMetadata == old(userMetadata) && temporalData == old(temporalData) && coeditData == old(coeditData)
      ensures r.Args? ==>
        && r.userText == Normalize(usertext.value) && r.k == ClampK(k) && r.followup == followup
        && (r.userText == [] ==> r.error == Some(MissingUserText))
        && (r.userText != [] ==>
              var v := Classify(variant, r.userText in old(userMetadata), r.userText, probe);
              && r.error == ErrorOf(v)
              && userMetadata == SeededMeta(old(userMetadata), r.userText, v)
              && temporalData == SeededTemporal(old(temporalData), r.userText, v)
              && coeditData == SeededCoedit(old(coeditData), r.userText, v))
    {
      if variant == Current {
        if usertext.None? || usertext.value == "" {
          return Abort(422, "No usertext provided");
        }
        if k.KGiven? && k.text == "" {
          return Abort(422, "No k specified");
        }
      }
      var numSimilar := ClampK(k);
      if usertext.None? {
        return Raised("AttributeError");
      }
      var userText := usertext.value;
      if HasUserPrefix(userText) {
        userText := userText[5..];
      }
      var error: Option<string>;
      if userText != "" {
        userText := Underscored(userText);
        userText := [UpperAscii(userText[0])] + userText[1..];
        error := CheckUserText(variant, userText, probe);
      } else {
        error := Some(MissingUserText);
      }
      return Args(userText, numSimilar, followup, error);
    }

    /**
     * Loading the co-edit table: the header must be the expected one (the
     * service's assertion fails before any change otherwise); each row is
     * appended to its user's list.
     */
    method LoadCoeditData(header: seq<string>, rows: seq<Baseline.CoeditRow>) returns (ok: bool)
      modifies this
      ensures ok == (header == Baseline.CoeditHeader)
      ensures coeditData == if ok then Baseline.AppendRows(old(coeditData), rows) else old(coeditData)
      ensures userMetadata == old(userMetadata) && temporalData == old(temporalData)
    {
      if header != Baseline.CoeditHeader {
        return false;
      }
      var i := 0;
      while i < |rows|
        invariant 0 <= i <= |rows|
        invariant Baseline.AppendRows(old(coeditData), rows) == Baseline.AppendRows(coeditData, rows[i..])
        invariant userMetadata == old(userMetadata) && temporalData == old(temporalData)
      {
        assert rows[i..][1..] == rows[i + 1..];
        var row := rows[i];
        ghost var before := coeditData;
        if row.user !in coeditData {
          coeditData := coeditData[row.user := []];
        }
        coeditData := coeditData[row.user := coeditData[row.user] + [Ranking.Entry(row.neighbor, row.overlap)]];
        assert coeditData == Baseline.AppendRow(before, row);
        i := i + 1;
      }
      assert rows[i..] == [];
      return true;
    }

    /**
     * Loading the temporal table: the header must be the expected one; each
     * row's weekday 1..7 becomes 0..6 and its edits are smeared into the
     * user's profile.
     */
    method LoadTemporalData(header: seq<string>, rows: seq<Baseline.TemporalRow>) returns (ok: bool)
      requires Valid()
      modifies this
      ensures Valid()
      ensures ok == (header == Baseline.TemporalHeader)
      ensures temporalData == if ok then Baseline.SmearRows(old(temporalData), rows, offsets) else old(temporalData)
      ensures userMetadata == old(userMetadata) && coeditData == old(coeditData)
    {
      if header != Baseline.TemporalHeader {
        return false;
      }
      var i := 0;
      while i < |rows|
        invariant 0 <= i <= |rows|
        invariant Valid()
        invariant Baseline.SmearRows(old(temporalData), rows, offsets) == Baseline.SmearRows(temporalData, rows[i..], offsets)
        invariant userMetadata == old(userMetadata) && coeditData == old(coeditData)
      {
        assert rows[i..][1..] == rows[i + 1..];
        LoadTemporalRow(rows[i]);
        i := i + 1;
      }
      assert rows[i..] == [];
      return true;
    }

    /** One line of the temporal table. */
    method LoadTemporalRow(row: Baseline.TemporalRow)
      requires Valid()
      modifies this
      ensures Valid()
      ensures temporalData == Baseline.SmearRow(old(temporalData), row, offsets)
      ensures userMetadata == old(userMetadata) && coeditData == old(coeditData)
    {
      var dayOfWeek := row.dayOfWeek - 1;
      if row.user !in temporalData {
        SeedWellFormed(userMetadata, temporalData, row.user, false);
        temporalData := temporalData[row.user := Zero()];
      }
      assert Baseline.ProfileOf(temporalData, row.user) == Baseline.ProfileOf(old(temporalData), row.user);
      UpdateTemporalData(row.user, dayOfWeek, row.hourOfDay, row.numEdits);
    }
  }
}
