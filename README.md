# Incremental similar-users engine — a Dafny model

This project models the per-query engine of the "similar users" service, which answers "which accounts edit like this
one?" for Wikipedia editors. A bulk export gives a baseline: co-edit counts between users and a day-of-week /
hour-of-day histogram of each user's edits. A query for a user then does five things:

- It fetches the user's edits made since the baseline (the edit delta).
- It smears each edit into the user's temporal histograms.
- It finds the editors who edited the newly touched pages near the user's own revisions, and removes bots among them.
- It merges those discoveries into the user's stored neighbour list.
- It sorts that list by two keys and cuts it at a bound.

Two versions of the engine exist: `similar_users/wsgi.py` (current) and `model/wsgi.py` (older, with timestamps
stored as strings). Both are modelled by the same Dafny. Where they differ, a `Variant` parameter selects the
behaviour.

Modules:

- `Common`: `Option`, `Sum`, `Max`, `Min`.
- `Temporal`: the 7/24 bucket profile, the per-offset smearing of `update_temporal_data`, and the threshold chain of
  `get_temporal_overlap`.
- `Fetch`: the fold of `get_additional_edits` over the batches of the revision listing, as specification functions
  with lemmas.
- `Discovery`: the window scan of `update_coedit_data` and its insertion-ordered neighbour → pages dictionary,
  `chunkify`, and bot removal. The loops are methods proved against the specification functions.
- `Ranking`: the backward merge loop, the stable two-key sort, and the cut loop.
- `Query`: handle normalisation, `k` clamping, the classification of an unknown user from the two account probes, and
  the ratios of `build_result`.
- `Timestamps`: the older version's fixed-format string timestamps. String order is the order of the field tuple,
  which for valid calendar fields is time order, so its string
  `min`/`max` widening equals the integer widening of `Fetch`.
- `Baseline`: the row accumulation of the older version's `load_coedit_data` and `load_temporal_data`.
- `Engine`: class `SimilarUsers`. Its map fields `userMetadata`, `coeditData` and `temporalData` are the three
  global dictionaries. The service's functions that change them are its methods, each tied to the specification
  functions above.

Network answers are inputs:

- the batches of the revision listing, with `Failure` standing for an exception raised while it is read;
- each page's revision authors, batch by batch;
- the group lists of candidate neighbours;
- the two probes of `check_user_text`;
- the temporal similarity score.

Offsets, the default fetch start and the bounds are parameters.

### Behaviour worth noting

- **Tie-break:** equal overlaps are ordered by the neighbour's page count, smallest first. The key is
  `-num_pages` under `reverse=True`. See `Ranking.Outranks` and `Ranking.SortRankedSpec`.
- **Cut rule:** the cut happens at the first overlap-1 entry at or after the bound. A run of 1s that starts before the
  bound is split, and no run is ever extended past the bound. `Ranking.CutSplitsRun` exhibits this.
- **Window:** the window is asymmetric: `k` positions before the user's revision and `k - 1` after it. The slice
  `revs[max(0, idx-k) : idx+k]` gives this.
- **Normalisation:** it is not idempotent. `Query.NormalizeNotIdempotent` shows `"User:User:X"` → `"User:X"` →
  `"X"`, and `Query.NormalizeFixedPoint` states exactly when a normalised handle is a fixed point.
- **Day argument:** the fetcher passes the day of the month as the `day` of each revision
  (`Fetch.Revision.day`), and the smearing reduces it modulo 7 like a weekday.
- **Failed fetch:** temporal increments are made while revisions arrive and are kept when the fetch fails. Only the
  metadata commit is skipped. See `Engine.SimilarUsers.GetAdditionalEdits`.
- **Co-edit update that raises:** a revision listing or group query that raises leaves the co-edit table as it
  was, but the fetch before it has already advanced the user's most recent edit and page counts. A later query does
  not fetch those edits again, so the neighbours they would have credited are not discovered through them. See
  `Engine.SimilarUsers.UpdateCoeditData`.
- **Known user without co-edit rows:** the older version loads the metadata and the co-edit table from separate
  files, so a user can be known without a stored list. Such a user passes the argument check and gets a fetch, and
  then the co-edit update raises KeyError on its first lookup, on every query. `Engine.SimilarUsers.UpdateCoeditData`
  reports this as not completed, with nothing changed. The current version always seeds the list with the user.
- **Unknown user with contributions but none of the account keys:** the current version rejects it with the "no
  account (or edits in scope)" message. The older one accepts it without seeding anything.

## Model

| member | source | states |
|---|---|---|
| Temporal.Zero | similar_users/wsgi.py:527-528 | a new profile has 7 day and 24 hour buckets, all zero |
| Temporal.DayBucket | similar_users/wsgi.py:532-533 | the day bucket credited for an offset is in 0..6 (floor division rolls the day over) |
| Temporal.HourBucket | similar_users/wsgi.py:532-534 | the hour bucket credited for an offset is in 0..23 |
| Temporal.SmearBuckets | similar_users/wsgi.py:531-536 | each day/hour bucket grows by `n` times the number of offsets that hit it; so only hit buckets change |
| Temporal.SmearMass | similar_users/wsgi.py:531-536 | one call adds `len(offsets) * n` to the day total and to the hour total |
| Temporal.SmearAcrossMidnight | similar_users/wsgi.py:532-534 | with offsets (-1, 0, 1), an edit at hour 0 also credits hour 23 of the previous day |
| Temporal.BandIntervals | similar_users/wsgi.py:168-177 | the label of each score interval: 1 is Same, (0.8, 1) and above 1 High, (0.5, 0.8] Medium, (0, 0.5] Low, else No overlap |
| Temporal.BandSameIff | similar_users/wsgi.py:170-171 | Same exactly when the score is 1 |
| Temporal.BandMonotone | model/wsgi.py:101-110 | for scores up to 1, a larger score never gets a lower label |
| Temporal.BandAboveOne | similar_users/wsgi.py:170-173 | a score above 1 is labelled High, not Same |
| Temporal.TemporalOverlap | similar_users/wsgi.py:168-179 | the result carries the score and the threshold-chain label of that score |
| Temporal.TemporalOverlapLevels | similar_users/wsgi.py:168-179 | the label by score interval: Same exactly at 1, High above 0.8 and not 1, Medium in (0.5, 0.8], Low in (0, 0.5], NoOverlap at or below 0 |
| Fetch.AddRevisionsSpec | similar_users/wsgi.py:227-237 | a page's revisions append their timestamps to its list in order, count one edit each, widen the range and smear one edit each; other pages unchanged |
| Fetch.AddPageLookup | similar_users/wsgi.py:220-229 | a page opens its key if new and appends only to its own list |
| Fetch.AddPagesTimes | similar_users/wsgi.py:219-229 | after a batch the keys are the old keys plus the batch's page ids, each holding its timestamps in arrival order |
| Fetch.AddPagesCounts | similar_users/wsgi.py:219-231 | the new-page counter grows with the number of new keys and the new-edit counter with the number of revisions |
| Fetch.AddPagesAbsorbs | similar_users/wsgi.py:219-237 | the range and the profile absorb every revision of the batch, in order |
| Fetch.RunSpec | similar_users/wsgi.py:218-239 | the loop reads a prefix of whole batches; after each earlier batch at most `limit` pages were known; it stops early only once more than `limit` are known; failure is exactly a failing batch right after the prefix, reached while at most `limit` pages were known |
| Fetch.WidenAllSpec | similar_users/wsgi.py:232-237 | the oldest edit never increases and the most recent never decreases; both are set by the first timestamp when unknown; every timestamp lies within the range |
| Fetch.SmearAllMass | similar_users/wsgi.py:230 | each fetched revision adds `len(offsets)` to both histogram totals |
| Fetch.AddPagesOrder | similar_users/wsgi.py:218-224 | a batch appends to the key order exactly the page ids not yet known, each once, in the order they first arrive |
| Fetch.AddPagesOrdered | similar_users/wsgi.py:218-224 | the key order stays free of duplicates and lists exactly the keys |
| Fetch.FetchSpec | similar_users/wsgi.py:213-246 | from the committed state: the keys are exactly the page ids read, listed once each in first-arrival order, each with its timestamps in arrival order; `num_pages` grows by the number of keys and `num_edits` by the number of revisions read |
| Discovery.AddAllSpec | similar_users/wsgi.py:301-303 | adding credits keeps the dictionary's keys distinct, keeps the old keys in place and appends the new neighbours in first-credit order; the keys become the old keys plus the credited neighbours, and a key's set becomes its old pages plus exactly the pages credited to it |
| Discovery.WindowMember | similar_users/wsgi.py:298-303 | a credit from one window is an author at positions `max(0, i-k) .. i+k-1` other than the user |
| Discovery.ScanFromMember | similar_users/wsgi.py:294-303 | the credits of one batch are exactly the authors in some window around one of the user's revisions, never the user |
| Discovery.BatchCreditsMember | similar_users/wsgi.py:292-303 | credits of a page come only from windows inside one batch of its listing |
| Discovery.PageCreditsMember | similar_users/wsgi.py:276-303 | a credit names a touched page and an author co-editing it with the user |
| Discovery.DiscoverySpec | similar_users/wsgi.py:275-303 | the discovered dictionary is duplicate-free, ordered by first credit, omits the user, has no empty set, and maps `u` to `pid` exactly when `u` co-edited `pid` within a window |
| Discovery.CreditWindow | similar_users/wsgi.py:298-303 | the inner window loop adds exactly the window's credits |
| Discovery.ScanBatch | similar_users/wsgi.py:293-303 | the scan of one batch adds exactly that batch's credits |
| Discovery.DiscoverCoeditors | similar_users/wsgi.py:275-303 | the discovery loop builds the dictionary of all credits of all touched pages |
| Discovery.ChunkifyConcat | similar_users/wsgi.py:352-354 | the chunks concatenate to the input |
| Discovery.ChunkifyCount | similar_users/wsgi.py:352-354 | there are ceil(n/k) chunks; none when the input is empty |
| Discovery.ChunkifySlices | similar_users/wsgi.py:352-354 | chunk `i` is the slice `[i*k, min(i*k+k, n))` |
| Discovery.ChunkifySizes | model/wsgi.py:251-253 | every chunk is non-empty and at most `k` long, and all but the last are exactly `k` long |
| Discovery.FilterOut | similar_users/wsgi.py:306 | the filtered list holds exactly the listed users not excluded |
| Discovery.DropBotsSpec | similar_users/wsgi.py:316-318 | dropping the flagged users of a list one by one pops exactly the bots among them |
| Discovery.RemoveBots | similar_users/wsgi.py:305-318 | the chunked bot loop pops exactly the candidates that are not known users and are in the "bot" group; the rest keep order and pages |
| Ranking.BumpExisting | similar_users/wsgi.py:321-327 | the backward loop bumps each entry as specified and leaves the undiscovered names |
| Ranking.AppendLeftover | similar_users/wsgi.py:328-329 | the leftovers are appended in discovery order with their page counts |
| Ranking.MergeOverlaps | similar_users/wsgi.py:320-329 | the merge loops compute the merged list |
| Ranking.MergeShape | similar_users/wsgi.py:320-329 | an entry gains its neighbour's new-page count exactly when the neighbour was discovered and no later entry names it; others are unchanged; leftovers follow in discovery order |
| Ranking.MergeDistinct | similar_users/wsgi.py:320-329 | merging adds no duplicate neighbour |
| Ranking.BumpedTotal | similar_users/wsgi.py:321-327 | the bump loop adds the page count once to a neighbour's total when the list names it |
| Ranking.AppendedTotal | similar_users/wsgi.py:328-329 | an appended neighbour's total is its page count |
| Ranking.MergeTotal | similar_users/wsgi.py:320-329 | a neighbour's total overlap grows by exactly its number of new pages |
| Ranking.MergeAdditive | similar_users/wsgi.py:320-329 | merging c1 then c2 pages for a neighbour adds c1 + c2 |
| Ranking.AppendedNames | similar_users/wsgi.py:328-329 | one entry per leftover key, in order, with its page count |
| Ranking.InsertSorted | similar_users/wsgi.py:336-338 | inserting keeps the list sorted by (overlap descending, page count ascending) |
| Ranking.InsertPerm | similar_users/wsgi.py:336-338 | inserting adds exactly the inserted entry |
| Ranking.SortRankedSpec | similar_users/wsgi.py:332-338 | the sorted list is ordered by overlap descending, then page count ascending (unknown as 0), and is a permutation of the merged list |
| Ranking.InsertStable | similar_users/wsgi.py:336-338 | inserting keeps the relative order of entries with equal keys, the new one last |
| Ranking.SortRankedStable | similar_users/wsgi.py:336-338 | entries with equal keys keep their merged order |
| Ranking.FirstSingle | similar_users/wsgi.py:342-346 | the first index from a start with overlap 1, or the length; no overlap-1 entry before it |
| Ranking.CutSpec | similar_users/wsgi.py:340-347 | the cut keeps a prefix of length at least min(limit, n), stopping only at an overlap-1 entry at or after the limit |
| Ranking.CutSplitsRun | similar_users/wsgi.py:340-347 | with bound 2 and overlaps 2, 1, 1, 1 the cut keeps 2 entries and splits the run of 1s |
| Ranking.Truncate | similar_users/wsgi.py:340-347 | the early-exit loop keeps exactly the prefix the cut rule defines |
| Query.Underscored | similar_users/wsgi.py:473 | spaces become underscores position by position |
| Query.NormalizeShape | similar_users/wsgi.py:470-474 | a case-insensitive "user:" is stripped once, spaces become `_`, the first character is upper-cased, and the result is empty exactly when nothing follows the prefix |
| Query.NormalizeFixedPoint | model/wsgi.py:335-339 | a normalised handle is normalised again unchanged exactly when it does not start with "user:" |
| Query.NormalizeNotIdempotent | similar_users/wsgi.py:470-474 | "User:User:X" becomes "User:X", which becomes "X" |
| Query.ClampK | model/wsgi.py:323-333 | `k` is the parsed value clamped to [1, 250]; absent or unparsable gives 50 |
| Query.ClassifySeeds | model/wsgi.py:255-315 | a known user is accepted without probing; an anonymous record is seeded exactly for "invalid", a registered one exactly for groups without "bot" |
| Query.ClassifyRejects | model/wsgi.py:279-318 | no contributions, or a missing account, or the "bot" group yields its message |
| Query.ClassifyVariants | similar_users/wsgi.py:442-449 | the versions differ only when contributions exist but none of the keys do: the current one rejects, the older one accepts |
| Query.BuildResultSpec | similar_users/wsgi.py:121-130 | overlap / own page count; min(1, overlap / neighbour's page count, default 1): the plain ratio below 1 and exactly 1 from there on; page count defaults to the overlap; undefined on a zero divisor |
| Query.BuildResultExample | model/wsgi.py:73-76 | 20 own pages, neighbour with 11 and 11 shared: 0.55 and 1.0 |
| Timestamps.FormatOrder | model/wsgi.py:154-159 | formatted timestamps compare as strings exactly as their field tuples compare, and are equal exactly when the instants are |
| Timestamps.WidenAgrees | model/wsgi.py:154-159 | string min/max of two formatted timestamps is the format of the earlier/later instant |
| Baseline.AppendRowsSpec | model/wsgi.py:357-364 | every row's user gets a list; each list is its old list followed by its rows in file order, duplicates kept |
| Baseline.SmearRowsMass | model/wsgi.py:372-393 | loading temporal rows adds `len(offsets)` times the user's row edits to both of its totals |
| Baseline.SmearRowsKeys | model/wsgi.py:379-381 | a user has a profile after loading exactly when it had one or has a row |
| Engine.DiscoveredSpec | similar_users/wsgi.py:275-318 | after discovery and bot removal a neighbour keeps page `pid` exactly when it co-edited `pid` and is not a previously unknown bot; the user is never a neighbour |
| Engine.CoeditUpdateSpec | similar_users/wsgi.py:320-349 | the stored list is sorted, drawn from the merged list without duplication, keeps at least min(limit, merged length) entries and all of them when they fit, and names only old or discovered neighbours |
| Engine.SimilarUsers.UpdateTemporalData | similar_users/wsgi.py:525-536 | the user's profile (zero when absent) becomes its smear; the other tables are unchanged |
| Engine.SimilarUsers.GetAdditionalEdits | similar_users/wsgi.py:182-258 | the start is last edit + 1 or the default; on failure None and metadata unchanged but temporal increments kept; otherwise the grouped pages returned and counters and range committed, as `Fetch.Run` defines |
| Engine.SimilarUsers.UpdateCoeditData | similar_users/wsgi.py:261-349 | the user's list becomes the cut of the sort of the merge with the discovered non-bot neighbours; when the user has no stored list (KeyError in the older version, model/wsgi.py:180) or a revision listing or group query raises, it does not complete and nothing changes |
| Engine.SimilarUsers.CheckUserText | similar_users/wsgi.py:357-449 | the error and the seeded state are those of the classification |
| Engine.SimilarUsers.ValidateApiArgs | similar_users/wsgi.py:452-478 | the current version aborts with 422 on a missing or empty handle or empty `k`; the older one (model/wsgi.py:320-343) raises AttributeError on a missing handle and changes nothing; otherwise the normalised handle, clamped `k`, the missing-handle error or the user check's result |
| Engine.SimilarUsers.LoadCoeditData | model/wsgi.py:351-365 | a wrong header changes nothing; otherwise the rows are appended as `Baseline.AppendRows` defines |
| Engine.SimilarUsers.LoadTemporalData | model/wsgi.py:367-381 | a wrong header changes nothing; otherwise each row's weekday minus 1 is smeared, as `Baseline.SmearRows` defines |

## Left out

- Flask routing, authentication, CORS, metrics, templates and JSON rendering: web plumbing.
- The HTTP sessions and continuation paging: network I/O. Their answers are inputs.
- The cosine similarity of two profiles: a floating-point library call. The score is an input `real`.
- Floats are modelled as exact reals.
- The database-backed loaders, `lookup_user` and the schema module: database I/O.
- `load_metadata`, which `eval`s a column; file opening, configuration parsing and the `literal_eval` of the offsets
  (they are a given `seq<int>`).
- `strptime`/`strftime` and the follow-up URLs. Timestamps are integer seconds, and each revision carries its day and
  hour. The one-second `timedelta` is `+ 1`.
- Concurrency: the dictionaries are shared by request threads without locks. The model runs one query at a time.
- Query.NormalizeShape: letter case is ASCII only; Python's Unicode `lower`/`upper` is not modelled.
- Engine.SimilarUsers.GetAdditionalEdits: an exception is modelled only between batches (`Failure`). An exception in
  the middle of a batch, after some of its revisions were recorded, is not.
- Engine.SimilarUsers.UpdateCoeditData: the group answer for a chunk is assumed to name exactly the chunk's users, so
  the service's `pop` never raises `KeyError`. A negative window size `k` is excluded by its `nat` type.
- Engine.SimilarUsers.UpdateCoeditData: the stored list is mutated in place before it is replaced. Only the final
  state is modelled; the two agree because every read that can raise happens before the first change to the list.
- Engine.SimilarUsers.ValidateApiArgs: parsing `k` with `int()` is an input (`KGiven.parsed`), and so are the
  request's presence tests.
- Engine.SimilarUsers.LoadCoeditData: rows are taken already split and converted. A malformed line, which raises in
  the service, is not modelled.
- Engine.SimilarUsers.LoadTemporalData: rows are taken already split and converted. A malformed line, which raises
  in the service, is not modelled.
