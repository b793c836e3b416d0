/**
 * Request-level logic: the handle normalisation and `k` clamping of the API
 * arguments, the classification of a user who is not in the data from the
 * two account probes, and the ratios of one result row.
 */
module Query {
  import opened Common
  import opened Temporal

  // ---------------------------------------------------------------------
  // Handle normalisation

  function LowerAscii(c: char): char
  {
    if 'A' <= c <= 'Z' then (c as int + 32) as char else c
  }

  function UpperAscii(c: char): char
  {
    if 'a' <= c <= 'z' then (c as int - 32) as char else c
  }

  /** The handle starts with "user:" in any letter case. */
  predicate HasUserPrefix(h: string)
  {
    |h| >= 5 && LowerAscii(h[0]) == 'u' && LowerAscii(h[1]) == 's' && LowerAscii(h[2]) == 'e'
    && LowerAscii(h[3]) == 'r' && h[4] == ':'
  }

  function StripUserPrefix(h: string): string
  {
    if HasUserPrefix(h) then h[5..] else h
  }

  function Underscored(s: string): (r: string)
    ensures |r| == |s|
    ensures forall i :: 0 <= i < |s| ==> r[i] == if s[i] == ' ' then '_' else s[i]
  {
    if s == [] then [] else [if s[0] == ' ' then '_' else s[0]] + Underscored(s[1..])
  }

  /**
   * The normalised handle: a leading "user:" (any case) is stripped once,
   * spaces become underscores and the first character is upper-cased. The
   * empty string stands for "nothing left", which the caller reports.
   */
  function Normalize(h: string): string
  {
    var t := Underscored(StripUserPrefix(h));
    if t == [] then [] else [UpperAscii(t[0])] + t[1..]
  }

  /**
   * What normalisation does, position by position: the result is as long
   * as the handle without its prefix, has no spaces and no lower-case
   * ASCII letter in front, and is empty exactly when nothing follows the
   * prefix.
   */
  lemma NormalizeShape(h: string)
    ensures var t, r := StripUserPrefix(h), Normalize(h);
      && |r| == |t|
      && (r == [] <==> t == [])
      && (forall i :: 0 <= i < |r| ==> r[i] != ' ')
      && (r != [] ==> !('a' <= r[0] <= 'z') && r[0] == UpperAscii(if t[0] == ' ' then '_' else t[0]))
      && (forall i :: 1 <= i < |r| ==> r[i] == if t[i] == ' ' then '_' else t[i])
  {
  }

  /**
   * A normalised handle is a fixed point of normalisation exactly when it
   * does not itself start with "user:".
   */
  lemma NormalizeFixedPoint(h: string)
    ensures var r := Normalize(h); Normalize(r) == r <==> !HasUserPrefix(r)
  {
    var r := Normalize(h);
    NormalizeShape(h);
    NormalizeShape(r);
    if !HasUserPrefix(r) && r != [] {
      assert StripUserPrefix(r) == r;
      var u := Underscored(r);
      assert u == r;
      assert [UpperAscii(u[0])] + u[1..] == r;
    }
  }

  /** Normalisation is not idempotent: "User:User:X" becomes "User:X", which becomes "X". */
  lemma NormalizeNotIdempotent()
    ensures Normalize("User:User:X") == "User:X"
    ensures Normalize("User:X") == "X"
  {
    assert StripUserPrefix("User:User:X") == "User:X";
    assert Underscored("User:X") == "User:X";
    assert StripUserPrefix("User:X") == "X";
    assert Underscored("X") == "X";
  }

  const MissingUserText :=
    "missing user_text -- e.g., \"Isaac (WMF)\" for https://en.wikipedia.org/wiki/User:Isaac_(WMF)"

  const UserQuote := "User `"
  const NoAccountText := "` does not appear to have an account in English Wikipedia."
  const BotText := "` is a bot and therefore out of scope."
  const NoEditsText := "` does not appear to have an account (or edits in scope) in English Wikipedia."

  function NoAccountMessage(u: string): string
  {
    UserQuote + u + NoAccountText
  }

  function BotMessage(u: string): string
  {
    UserQuote + u + BotText
  }

  function NoEditsMessage(u: string): string
  {
    UserQuote + u + NoEditsText
  }

  // ---------------------------------------------------------------------
  // k

  const DEFAULT_K := 50
  const MAX_K := 250

  /**
   * The `k` argument: absent, or given as text together with what integer
   * parsing makes of it (None when the parser rejects the text).
   */
  datatype KArg = KAbsent | KGiven(text: string, parsed: Option<int>)

  /** A parsed value clamped to [1, 250]; rejected text falls back to the default. */
  function ClampK(k: KArg): (r: int)
    ensures 1 <= r <= MAX_K
    ensures k.KAbsent? ==> r == DEFAULT_K
    ensures k.KGiven? && k.parsed.None? ==> r == DEFAULT_K
    ensures k.KGiven? && k.parsed.Some? ==>
      r == (if k.parsed.value < 1 then 1 else if k.parsed.value > MAX_K then MAX_K else k.parsed.value)
  {
    var n := match k
      case KAbsent => Some(DEFAULT_K)
      case KGiven(_, parsed) => parsed;
    match n
    case None => DEFAULT_K
    case Some(v) => Min(Max(1, v), MAX_K)
  }

  // ---------------------------------------------------------------------
  // Classification of a user not in the data

  /** The account lookup for one name: the "missing" and "invalid" flags and the groups when listed. */
  datatype AccountInfo = AccountInfo(missing: bool, invalid: bool, groups: Option<seq<string>>)

  /** The two probes: whether the user has contributions in scope, and the account lookup. */
  datatype Probe = Probe(hasContribs: bool, account: AccountInfo)

  /** The two versions differ in what an account with contributions but none of the keys yields. */
  datatype Variant = Current | Legacy

  /**
   * What the check decides: accept without change, seed a new anonymous or
   * registered user, or reject with a message.
   */
  datatype Verdict = Accept | SeedAnon | SeedRegistered | Reject(message: string)

  function Classify(variant: Variant, known: bool, user: string, probe: Probe): Verdict
  {
    if known then Accept
    else if !probe.hasContribs then Reject(NoEditsMessage(user))
    else if probe.account.missing then Reject(NoAccountMessage(user))
    else if probe.account.invalid then SeedAnon
    else if probe.account.groups.Some? then
      (if "bot" in probe.account.groups.value then Reject(BotMessage(user)) else SeedRegistered)
    else if variant == Current then Reject(NoEditsMessage(user))
    else Accept
  }

  /**
   * Classification is total and exclusive: a known user is accepted
   * without probing; a new user is seeded exactly when it has
   * contributions, is not missing, and is either invalid (anonymous) or
   * listed with groups that do not contain "bot".
   */
  lemma ClassifySeeds(variant: Variant, known: bool, user: string, probe: Probe)
    ensures var v, a := Classify(variant, known, user, probe), probe.account;
      && (known ==> v == Accept)
      && (v == SeedAnon <==> !known && probe.hasContribs && !a.missing && a.invalid)
      && (v == SeedRegistered <==>
            !known && probe.hasContribs && !a.missing && !a.invalid && a.groups.Some? && "bot" !in a.groups.value)
  {
  }

  /** The rejections and their messages. */
  lemma ClassifyRejects(variant: Variant, user: string, probe: Probe)
    ensures var v, a := Classify(variant, false, user, probe), probe.account;
      && (!probe.hasContribs ==> v == Reject(NoEditsMessage(user)))
      && (probe.hasContribs && a.missing ==> v == Reject(NoAccountMessage(user)))
      && (var bot := a.groups.Some? && "bot" in a.groups.value;
          probe.hasContribs && !a.missing && !a.invalid && bot ==> v == Reject(BotMessage(user)))
  {
  }

  /**
   * The two versions agree except for an account with contributions but
   * none of the keys: the current one rejects it with the "no account or
   * edits" message, the older one accepts it without seeding anything.
   */
  lemma ClassifyVariants(known: bool, user: string, probe: Probe)
    ensures var a := probe.account;
      var fallThrough := !known && probe.hasContribs && !a.missing && !a.invalid && a.groups.None?;
      && (!fallThrough ==> Classify(Current, known, user, probe) == Classify(Legacy, known, user, probe))
      && (fallThrough ==> Classify(Current, known, user, probe) == Reject(NoEditsMessage(user))
                          && Classify(Legacy, known, user, probe) == Accept)
  {
  }

  // ---------------------------------------------------------------------
  // One result row

  /** The numeric part of one result row and its two temporal overlaps. */
  datatype Row = Row(
    neighbor: string,
    numEditsInData: int,
    editOverlap: real,
    editOverlapInv: real,
    dayOverlap: Overlap,
    hourOverlap: Overlap)

  /**
   * The row for `neighbor`: its page count (the overlap when unknown), the
   * overlap relative to the querying user's page count, and the overlap
   * relative to the neighbour's page count (1 when unknown) capped at 1.
   * A zero divisor raises in the service and yields None here.
   */
  function BuildResult(userPages: int, neighborPages: Option<int>, neighbor: string, overlap: int,
                       dayScore: real, hourScore: real): Option<Row>
  {
    var inv := match neighborPages case None => 1 case Some(n) => n;
    if userPages == 0 || inv == 0 then None
    else Some(Row(
      neighbor,
      match neighborPages case None => overlap case Some(n) => n,
      overlap as real / userPages as real,
      if 1.0 <= overlap as real / inv as real then 1.0 else overlap as real / inv as real,
      TemporalOverlap(dayScore),
      TemporalOverlap(hourScore)))
  }

  /**
   * The ratios: defined exactly when no page count in a divisor is zero;
   * the inverse overlap never exceeds 1, equals the plain ratio below 1 and
   * is exactly 1 from there on; an unknown neighbour reports the overlap as
   * its page count.
   */
  lemma BuildResultSpec(userPages: int, neighborPages: Option<int>, neighbor: string, overlap: int,
                        dayScore: real, hourScore: real)
    ensures var r := BuildResult(userPages, neighborPages, neighbor, overlap, dayScore, hourScore);
      && (r.Some? <==> userPages != 0 && neighborPages != Some(0))
      && (r.Some? ==>
            && r.value.editOverlap * userPages as real == overlap as real
            && r.value.editOverlapInv <= 1.0
            && r.value.dayOverlap.level == Band(dayScore)
            && r.value.hourOverlap.level == Band(hourScore))
      && (r.Some? && neighborPages.None? ==>
            r.value.numEditsInData == overlap && r.value.editOverlapInv == Min(1, overlap) as real)
      && (r.Some? && neighborPages.Some? ==>
            r.value.numEditsInData == neighborPages.value
            && (overlap < neighborPages.value && neighborPages.value > 0 ==>
                  r.value.editOverlapInv == overlap as real / neighborPages.value as real)
            && (0 < neighborPages.value <= overlap ==> r.value.editOverlapInv == 1.0))
  {
  }

  /** A querying user with 20 pages and a neighbour with 11 pages sharing 11: overlap 0.55, inverse 1. */
  lemma BuildResultExample()
    ensures var r := BuildResult(20, Some(11), "Bob", 11, 1.0, 0.0);
      r.Some? && r.value.editOverlap == 0.55 && r.value.editOverlapInv == 1.0
      && r.value.dayOverlap.level == Same && r.value.hourOverlap.level == NoOverlap
  {
  }
}
