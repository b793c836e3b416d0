/**
 * The baseline tables the older variant loads at start-up, taken as
 * already-split rows: co-edit rows are appended to each user's list in file
 * order, and temporal rows are smeared into each user's profile.
 */
module Baseline {
  import opened Common
  import opened Temporal
  import opened Ranking

  const CoeditHeader: seq<string> := ["user_text", "user_neighbor", "num_pages_overlapped"]
  const TemporalHeader: seq<string> := ["user_text", "day_of_week", "hour_of_day", "num_edits"]

  datatype CoeditRow = CoeditRow(user: string, neighbor: string, overlap: int)

  /** `dayOfWeek` as in the file: 1 is Sunday, 7 is Saturday. */
  datatype TemporalRow = TemporalRow(user: string, dayOfWeek: int, hourOfDay: int, numEdits: int)

  // ---------------------------------------------------------------------
  // Co-edit rows

  function ListOf(cd: map<string, seq<Entry>>, u: string): seq<Entry>
  {
    if u in cd then cd[u] else []
  }

  /** One row: create the user's list if needed and append the entry. */
  function AppendRow(cd: map<string, seq<Entry>>, r: CoeditRow): map<string, seq<Entry>>
  {
    cd[r.user := ListOf(cd, r.user) + [Entry(r.neighbor, r.overlap)]]
  }

  function AppendRows(cd: map<string, seq<Entry>>, rows: seq<CoeditRow>): map<string, seq<Entry>>
    decreases |rows|
  {
    if rows == [] then cd else AppendRows(AppendRow(cd, rows[0]), rows[1..])
  }

  /** The entries the rows give user `u`, in file order. */
  function RowsFor(rows: seq<CoeditRow>, u: string): seq<Entry>
  {
    if rows == [] then []
    else (if rows[0].user == u then [Entry(rows[0].neighbor, rows[0].overlap)] else []) + RowsFor(rows[1..], u)
  }

  /** Some row belongs to user `u`. */
  ghost predicate HasRow(rows: seq<CoeditRow>, u: string)
  {
    exists i :: 0 <= i < |rows| && rows[i].user == u
  }

  lemma HasRowCons(rows: seq<CoeditRow>, u: string)
    requires rows != []
    ensures HasRow(rows, u) <==> rows[0].user == u || HasRow(rows[1..], u)
  {
    if i :| 0 <= i < |rows[1..]| && rows[1..][i].user == u {
      assert rows[i + 1].user == u;
    }
    if i :| 0 <= i < |rows| && rows[i].user == u {
      if i > 0 {
        assert rows[1..][i - 1].user == u;
      }
    }
  }

  /** The users with a list after loading: the old ones and every user of a row. */
  lemma {:induction false} AppendRowsKeys(cd: map<string, seq<Entry>>, rows: seq<CoeditRow>, u: string)
    ensures u in AppendRows(cd, rows) <==> u in cd || HasRow(rows, u)
    decreases |rows|
  {
    if rows != [] {
      AppendRowsKeys(AppendRow(cd, rows[0]), rows[1..], u);
      HasRowCons(rows, u);
    }
  }

  /** One row extends its own user's list and leaves the others alone. */
  lemma AppendRowList(cd: map<string, seq<Entry>>, r: CoeditRow, u: string)
    ensures ListOf(AppendRow(cd, r), u) == ListOf(cd, u) + (if r.user == u then [Entry(r.neighbor, r.overlap)] else [])
  {
  }

  /** Each user's list after loading: the old list followed by its rows in file order. */
  lemma {:induction false} AppendRowsList(cd: map<string, seq<Entry>>, rows: seq<CoeditRow>, u: string)
    ensures ListOf(AppendRows(cd, rows), u) == ListOf(cd, u) + RowsFor(rows, u)
    decreases |rows|
  {
    if rows != [] {
      var cd1 := AppendRow(cd, rows[0]);
      AppendRowsList(cd1, rows[1..], u);
      AppendRowList(cd, rows[0], u);
      var here := if rows[0].user == u then [Entry(rows[0].neighbor, rows[0].overlap)] else [];
      assert RowsFor(rows, u) == here + RowsFor(rows[1..], u);
      assert (ListOf(cd, u) + here) + RowsFor(rows[1..], u) == ListOf(cd, u) + (here + RowsFor(rows[1..], u));
    } else {
      assert ListOf(cd, u) + [] == ListOf(cd, u);
    }
  }

  /**
   * Loading co-edit rows: the users with a list are the old ones plus every
   * user of a row, and each user's list is its old list followed by its
   * rows in file order, duplicates included.
   */
  lemma AppendRowsSpec(cd: map<string, seq<Entry>>, rows: seq<CoeditRow>)
    ensures var r := AppendRows(cd, rows);
      && (forall u :: u in r <==> u in cd || exists i :: 0 <= i < |rows| && rows[i].user == u)
      && (forall u :: ListOf(r, u) == ListOf(cd, u) + RowsFor(rows, u))
  {
    forall u ensures u in AppendRows(cd, rows) <==> u in cd || HasRow(rows, u) {
      AppendRowsKeys(cd, rows, u);
    }
    forall u ensures ListOf(AppendRows(cd, rows), u) == ListOf(cd, u) + RowsFor(rows, u) {
      AppendRowsList(cd, rows, u);
    }
  }

  // ---------------------------------------------------------------------
  // Temporal rows

  function ProfileOf(td: map<string, Profile>, u: string): Profile
  {
    if u in td then td[u] else Zero()
  }

  ghost predicate AllShaped(td: map<string, Profile>)
  {
    forall u :: u in td ==> WellShaped(td[u])
  }

  /** One row: the file's weekday 1..7 becomes 0..6, then the edits are smeared. */
  function SmearRow(td: map<string, Profile>, r: TemporalRow, offsets: seq<int>): (t: map<string, Profile>)
    requires AllShaped(td)
    ensures AllShaped(t)
  {
    td[r.user := Smear(ProfileOf(td, r.user), r.dayOfWeek - 1, r.hourOfDay, r.numEdits, offsets)]
  }

  function SmearRows(td: map<string, Profile>, rows: seq<TemporalRow>, offsets: seq<int>): (t: map<string, Profile>)
    requires AllShaped(td)
    ensures AllShaped(t)
    decreases |rows|
  {
    if rows == [] then td else SmearRows(SmearRow(td, rows[0], offsets), rows[1..], offsets)
  }

  /** The total edit count of `u`'s rows. */
  function EditsFor(rows: seq<TemporalRow>, u: string): int
  {
    if rows == [] then 0 else (if rows[0].user == u then rows[0].numEdits else 0) + EditsFor(rows[1..], u)
  }

  /** One row changes only its own user's profile. */
  lemma SmearRowProfile(td: map<string, Profile>, r: TemporalRow, offsets: seq<int>, u: string)
    requires AllShaped(td)
    ensures ProfileOf(SmearRow(td, r, offsets), u)
      == if r.user == u then Smear(ProfileOf(td, u), r.dayOfWeek - 1, r.hourOfDay, r.numEdits, offsets)
         else ProfileOf(td, u)
  {
  }

  /** One row adds `|offsets| * numEdits` to its user's day and hour totals. */
  lemma SmearRowMass(td: map<string, Profile>, r: TemporalRow, offsets: seq<int>, u: string)
    requires AllShaped(td)
    ensures var p, q := ProfileOf(td, u), ProfileOf(SmearRow(td, r, offsets), u);
      var n := if r.user == u then r.numEdits else 0;
      && Sum(q.d) == Sum(p.d) + |offsets| * n
      && Sum(q.h) == Sum(p.h) + |offsets| * n
  {
    SmearRowProfile(td, r, offsets, u);
    if r.user == u {
      SmearMass(ProfileOf(td, u), r.dayOfWeek - 1, r.hourOfDay, r.numEdits, offsets);
    }
  }

  /**
   * Loading temporal rows conserves mass: each user's day total and hour
   * total grow by |offsets| times the edits of that user's rows; a user
   * with no rows keeps its profile.
   */
  lemma {:induction false} SmearRowsMass(td: map<string, Profile>, rows: seq<TemporalRow>, offsets: seq<int>, u: string)
    requires AllShaped(td)
    ensures var p, q := ProfileOf(td, u), ProfileOf(SmearRows(td, rows, offsets), u);
      && Sum(q.d) == Sum(p.d) + |offsets| * EditsFor(rows, u)
      && Sum(q.h) == Sum(p.h) + |offsets| * EditsFor(rows, u)
    decreases |rows|
  {
    if rows != [] {
      var r := rows[0];
      var td1 := SmearRow(td, r, offsets);
      SmearRowMass(td, r, offsets, u);
      SmearRowsMass(td1, rows[1..], offsets, u);
      assert SmearRows(td, rows, offsets) == SmearRows(td1, rows[1..], offsets);
      var n, here, rest := |offsets|, (if r.user == u then r.numEdits else 0), EditsFor(rows[1..], u);
      assert EditsFor(rows, u) == here + rest;
      assert n * (here + rest) == n * here + n * rest;
    }
  }

  /** A user appears in the loaded table exactly when it was there or has a row. */
  lemma {:induction false} SmearRowsKeys(td: map<string, Profile>, rows: seq<TemporalRow>, offsets: seq<int>)
    requires AllShaped(td)
    ensures forall u :: u in SmearRows(td, rows, offsets) <==> u in td || exists i :: 0 <= i < |rows| && rows[i].user == u
    decreases |rows|
  {
    if rows != [] {
      SmearRowsKeys(SmearRow(td, rows[0], offsets), rows[1..], offsets);
      forall u ensures u in SmearRows(td, rows, offsets) <==> u in td || exists i :: 0 <= i < |rows| && rows[i].user == u {
        if exists i :: 0 <= i < |rows[1..]| && rows[1..][i].user == u {
          var i :| 0 <= i < |rows[1..]| && rows[1..][i].user == u;
          assert rows[i + 1].user == u;
        }
        if exists i :: 0 <= i < |rows| && rows[i].user == u {
          var i :| 0 <= i < |rows| && rows[i].user == u;
          if i > 0 {
            assert rows[1..][i - 1].user == u;
          }
        }
      }
    }
  }
}
