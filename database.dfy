/**
  The ratings table of Application/database.py, as the rating pipeline uses it: the
  prior lookup of `get_competitor_rating` (the newest stored row for a member, division
  and match type, with the newcomer defaults when there is none) and the row appended by
  `write_competitor`. The SQLite file is a sequence of rows held by a `Ledger` object.
*/
module Database {
  import opened Outcomes
  import opened Config
  import opened PyStr
  import opened Rating

  /** The stored match_count: NULL, the empty string, or a number. */
  datatype StoredCount = Null | Blank | Counted(n: int)

  /** One row of the `ratings` table. */
  datatype Row = Row(first: string, last: string, uspsaNumber: Option<string>, matchType: string,
                     division: string, rating: real, lastChange: real, uncertainty: real,
                     performance: real, matchCount: StoredCount, percent: real, matchId: int,
                     matchName: string, club: string, clubCode: string, matchDate: string,
                     matchDateUnix: int)

  /** The lookup key: UPPER(uspsa_number), division and match_type. */
  datatype Key = Key(member: string, division: string, matchType: string)

  predicate Matches(row: Row, key: Key)
  {
    row.uspsaNumber.Some? && Upper(row.uspsaNumber.value) == key.member
    && row.division == key.division && row.matchType == key.matchType
  }

  /** `... WHERE ... ORDER BY match_date_unix DESC LIMIT 1`: the matching row with the latest
      match date; of rows with the same date, the one written last. */
  function Latest(rows: seq<Row>, key: Key): (r: Option<Row>)
    ensures r.None? <==> forall i :: 0 <= i < |rows| ==> !Matches(rows[i], key)
    ensures r.Some? ==> r.value in rows && Matches(r.value, key)
    ensures r.Some? ==> forall i :: 0 <= i < |rows| && Matches(rows[i], key) ==> rows[i].matchDateUnix <= r.value.matchDateUnix
  {
    if rows == [] then None
    else
      var front := rows[..|rows| - 1];
      var last := rows[|rows| - 1];
      var earlier := Latest(front, key);
      assert forall i :: 0 <= i < |rows| - 1 ==> rows[i] == front[i];
      if Matches(last, key) && (earlier.None? || earlier.value.matchDateUnix <= last.matchDateUnix) then Some(last)
      else earlier
  }

  /** A row written for a key with a match date no earlier than any stored for it is the one
      the lookup finds next. */
  lemma LatestFindsNewWrite(rows: seq<Row>, row: Row, key: Key)
    requires Matches(row, key)
    requires forall i :: 0 <= i < |rows| && Matches(rows[i], key) ==> rows[i].matchDateUnix <= row.matchDateUnix
    ensures Latest(rows + [row], key) == Some(row)
  {
    assert (rows + [row])[..|rows|] == rows;
  }

  /** A row for another key does not change what the lookup finds. */
  lemma LatestIgnoresOtherKeys(rows: seq<Row>, row: Row, key: Key)
    requires !Matches(row, key)
    ensures Latest(rows + [row], key) == Latest(rows, key)
  {
    assert (rows + [row])[..|rows|] == rows;
  }

  /** The record with the newcomer defaults of `get_competitor_rating`. */
  function Newcomer(r: Record): Record
  {
    r.(noob := true, numberOfMatches := 0, rating := NoobSkill, uncertainty := NoobUncertainty)
  }

  /** `get_competitor_rating(competitor)` on a table: a competitor without a member number, or
      without a stored row, gets the newcomer defaults; otherwise the newest row's rating and
      uncertainty, and its match count with NULL and '' read as 0. */
  function Lookup(r: Record, rows: seq<Row>): Record
  {
    match r.member
    case None => Newcomer(r)
    case Some(m) =>
      match Latest(rows, Key(Upper(m), r.division, r.matchType))
      case None => Newcomer(r)
      case Some(row) =>
        r.(noob := false, rating := row.rating, uncertainty := row.uncertainty,
           numberOfMatches := if row.matchCount.Counted? then row.matchCount.n else 0)
  }

  /** A competitor comes back as a newcomer exactly when it has no member number or no stored
      row; newcomers get rating 1000, uncertainty 350 and no matches; everyone else gets the
      stored values; nothing but those four fields changes. */
  lemma PriorDefaults(r: Record, rows: seq<Row>)
    ensures var p := Lookup(r, rows);
            && p == r.(noob := p.noob, rating := p.rating, uncertainty := p.uncertainty, numberOfMatches := p.numberOfMatches)
            && (p.noob <==> r.member.None? || Latest(rows, Key(Upper(r.member.value), r.division, r.matchType)).None?)
            && (p.noob ==> p.rating == 1000.0 && p.uncertainty == 350.0 && p.numberOfMatches == 0)
            && (!p.noob ==> var row := Latest(rows, Key(Upper(r.member.value), r.division, r.matchType)).value;
                            p.rating == row.rating && p.uncertainty == row.uncertainty
                            && p.numberOfMatches == (if row.matchCount.Counted? then row.matchCount.n else 0))
  {
  }

  /** The row `write_competitor` appends for a record. */
  function RowOf(r: Record): Row
  {
    Row(r.first, r.last, r.member, r.matchType, r.division, r.rating, r.lastChange, r.uncertainty,
        r.performance, Counted(r.numberOfMatches), r.percent, r.event.matchId, r.event.matchName,
        r.event.club, r.event.clubCode, r.event.matchDate, r.event.matchDateUnix)
  }

  /** Writing a member's record and looking the member up afterwards (with no later-dated row
      for the key) gives back the written rating, uncertainty and match count. */
  lemma WriteThenRead(r: Record, rows: seq<Row>, later: Record)
    requires r.member.Some? && later.member == r.member
    requires later.division == r.division && later.matchType == r.matchType
    requires forall i :: 0 <= i < |rows| && Matches(rows[i], Key(Upper(r.member.value), r.division, r.matchType))
               ==> rows[i].matchDateUnix <= r.event.matchDateUnix
    ensures var p := Lookup(later, rows + [RowOf(r)]);
            && !p.noob && p.rating == r.rating && p.uncertainty == r.uncertainty
            && p.numberOfMatches == r.numberOfMatches
  {
    LatestFindsNewWrite(rows, RowOf(r), Key(Upper(r.member.value), r.division, r.matchType));
  }

  /** The SQLite ratings table. */
  class Ledger {
    var rows: seq<Row>

    constructor (stored: seq<Row>)
      ensures rows == stored
    {
      rows := stored;
    }

    /** `write_competitor(competitor)`: one row appended, nothing else changed. */
    method WriteCompetitor(c: Competitor)
      modifies this
      ensures rows == old(rows) + [RowOf(c.Snapshot())]
    {
      rows := rows + [RowOf(c.Snapshot())];
    }
  }

  /** `get_competitor_rating(competitor)` on the competitor object. */
  method GetCompetitorRating(c: Competitor, table: Ledger)
    modifies c
    ensures c.Snapshot() == Lookup(old(c.Snapshot()), table.rows)
  {
    var r := c.Snapshot();
    var p := Lookup(r, table.rows);
    c.SetPrior(p.noob, p.rating, p.uncertainty, p.numberOfMatches);
  }
}
