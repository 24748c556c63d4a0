/**
  `match_update` of Application/rating.py: one match's division entries are ranked against
  each other, given their stored priors, solved for performance (twice when a newcomer is
  among them), re-rated against the match uncertainty, and, for members, counted and
  written back to the ratings table.

  The entries arrive as `mmr_format` produces them; the ratings table is a `Ledger`.
*/
module MatchUpdate {
  import opened Numerics
  import opened Outcomes
  import opened Config
  import opened EloMmr
  import opened Rating
  import opened Database
  import Rescore
  import Practiscore

  /** Number of grid points between the configured rating bounds. */
  const GridSize: nat := RatingMax - RatingMin + 1

  /** Every record after `get_competitor_rating` on the table. */
  function LookedUp(view: seq<Record>, rows: seq<Row>): (v: seq<Record>)
    ensures |v| == |view| && forall k :: 0 <= k < |view| ==> v[k] == Lookup(view[k], rows)
  {
    seq(|view|, k requires 0 <= k < |view| => Lookup(view[k], rows))
  }

  /** Some competitor came back from the lookup as a newcomer. */
  predicate AnyNewcomer(view: seq<Record>)
  {
    exists k :: 0 <= k < |view| && view[k].noob
  }

  /** Every record after `new_rating` against the match uncertainty u, in a field of n. */
  function RatedAll(g: Engine, view: seq<Record>, u: real, n: int): (v: seq<Record>)
    requires EngineLaws(g)
    ensures |v| == |view|
    ensures forall k :: 0 <= k < |view| ==> v[k] == Rerated(g, view[k], u, view[k].stageCount, n, RatingMin, GridSize)
  {
    seq(|view|, k requires 0 <= k < |view| => Rerated(g, view[k], u, view[k].stageCount, n, RatingMin, GridSize))
  }

  /** `number_of_matches += 1` for the competitors with a member number. */
  function CountedAll(view: seq<Record>): (v: seq<Record>)
    ensures |v| == |view|
    ensures forall k :: 0 <= k < |view| ==>
              v[k] == if view[k].member.Some? then view[k].(numberOfMatches := view[k].numberOfMatches + 1) else view[k]
  {
    seq(|view|, k requires 0 <= k < |view| =>
      if view[k].member.Some? then view[k].(numberOfMatches := view[k].numberOfMatches + 1) else view[k])
  }

  /** The rows written for the competitors with a member number, in list order. */
  function Written(view: seq<Record>): seq<Row>
  {
    if view == [] then []
    else
      var last := view[|view| - 1];
      Written(view[..|view| - 1]) + (if last.member.Some? then [RowOf(last)] else [])
  }

  /** The result of `match_update`: what it reports, the records and the table. */
  datatype Update = Update(outcome: Outcome, records: seq<Record>, rows: seq<Row>)

  /** The pipeline with one performance pass. An IndexError of the solve ends it before any
      rating, count or row is written. */
  function Updated(g: Engine, sqrt: real -> real, view: seq<Record>, rows: seq<Row>): Update
    requires EngineLaws(g)
  {
    var priors := LookedUp(Ranked(view), rows);
    var solved := SolveViews(g, priors, RatingMin, GridSize);
    var o := SolveOutcome(priors, GridSize);
    if o != Done then Update(o, solved, rows)
    else
      var u := sqrt(MeanSquare(Uncertainties(solved)));
      var final := CountedAll(RatedAll(g, solved, u, |view|));
      Update(Done, final, rows + Written(final))
  }

  /** `match_update(file, division, match_type)` from the entries on. It solves a second time
      exactly when the first solve succeeded and some competitor is a newcomer; the second
      pass leaves everything as the first left it. */
  method Run(scores: seq<Competitor>, table: Ledger, g: Engine, sqrt: real -> real)
    returns (o: Outcome, secondPass: bool)
    requires EngineLaws(g) && SqrtLaws(sqrt) && Distinct(scores)
    modifies scores, table
    ensures var u := Updated(g, sqrt, old(Views(scores)), old(table.rows));
            o == u.outcome && Views(scores) == u.records && table.rows == u.rows
    ensures secondPass <==> o == Done && AnyNewcomer(LookedUp(Ranked(old(Views(scores))), old(table.rows)))
  {
    ghost var view := Views(scores);
    ghost var rows := table.rows;
    var n := |scores|;
    WinLossRanking(scores);
    var noobs := LookUpAll(scores, table);
    ghost var priors := Views(scores);
    o, secondPass := SolveAndFinish(scores, table, g, sqrt, n, noobs);
    UpdatedSteps(g, sqrt, view, rows, priors, SolveViews(g, priors, RatingMin, GridSize), o);
  }

  /** `match_update` from the loaded match file: `mmr_format(file, division)` with its
      defaults (USPSA, classifiers ignored), so the match type asked for is not passed on;
      an error of the re-scoring is raised before anything else happens. */
  function MatchUpdated(g: Engine, sqrt: real -> real, data: Rescore.Match, division: string, rows: seq<Row>): Update
    requires EngineLaws(g)
  {
    match Practiscore.MmrRecords(data, division, "USPSA", IgnoreClassifier)
    case Err(e) => Update(Raised(e), [], rows)
    case Ok(view) => Updated(g, sqrt, view, rows)
  }

  /** `match_update(file, division, match_type)`: the competitors of the match are built, then
      run through the pipeline against the table; the list is returned. */
  method MatchUpdate(data: Rescore.Match, division: string, matchType: string, table: Ledger, g: Engine, sqrt: real -> real)
    returns (o: Outcome, scores: seq<Competitor>)
    requires EngineLaws(g) && SqrtLaws(sqrt)
    modifies table
    ensures var u := MatchUpdated(g, sqrt, data, division, old(table.rows));
            o == u.outcome && Views(scores) == u.records && table.rows == u.rows
  {
    var r := Practiscore.MmrFormat(data, division, "USPSA", IgnoreClassifier);
    if r.Err? {
      return Raised(r.error), [];
    }
    scores := r.value;
    var secondPass;
    o, secondPass := Run(scores, table, g, sqrt);
  }

  /** The solve, repeated when a newcomer is in the field, and what follows it when it
      succeeds. */
  method SolveAndFinish(scores: seq<Competitor>, table: Ledger, g: Engine, sqrt: real -> real, n: int, noobs: bool)
    returns (o: Outcome, secondPass: bool)
    requires EngineLaws(g) && SqrtLaws(sqrt) && Distinct(scores)
    modifies scores, table
    ensures o == SolveOutcome(old(Views(scores)), GridSize)
    ensures secondPass == (o == Done && noobs)
    ensures var solved := SolveViews(g, old(Views(scores)), RatingMin, GridSize);
            o != Done ==> Views(scores) == solved && table.rows == old(table.rows)
    ensures var solved := SolveViews(g, old(Views(scores)), RatingMin, GridSize);
            var final := CountedAll(RatedAll(g, solved, sqrt(MeanSquare(Uncertainties(solved))), n));
            o == Done ==> Views(scores) == final && table.rows == old(table.rows) + Written(final)
  {
    o := SolveTwice(scores, g, noobs);
    secondPass := o == Done && noobs;
    if o == Done {
      Finish(scores, table, g, sqrt, n);
    }
  }

  /** `performance_rating`, and once more when the first pass succeeded and a newcomer is in
      the field; the records are those of a single pass. */
  method SolveTwice(scores: seq<Competitor>, g: Engine, noobs: bool) returns (o: Outcome)
    requires EngineLaws(g) && Distinct(scores)
    modifies scores
    ensures o == SolveOutcome(old(Views(scores)), GridSize)
    ensures Views(scores) == SolveViews(g, old(Views(scores)), RatingMin, GridSize)
  {
    ghost var priors := Views(scores);
    o := PerformanceRating(scores, RatingMin, RatingMax, g);
    if o == Done && noobs {
      var again := PerformanceRating(scores, RatingMin, RatingMax, g);
      SecondPassChangesNothing(g, priors, RatingMin, GridSize);
      assert again == o;
    }
  }

  /** What `match_update` does once the solve succeeded: the match uncertainty, the new
      ratings, and the counts and rows of the members. */
  method Finish(scores: seq<Competitor>, table: Ledger, g: Engine, sqrt: real -> real, n: int)
    requires EngineLaws(g) && SqrtLaws(sqrt) && Distinct(scores)
    modifies scores, table
    ensures var final := CountedAll(RatedAll(g, old(Views(scores)), sqrt(MeanSquare(Uncertainties(old(Views(scores))))), n));
            Views(scores) == final && table.rows == old(table.rows) + Written(final)
  {
    var u := MatchUncertainty(scores, sqrt);
    RateAll(scores, u, n, g);
    CountAndWrite(scores, table);
  }

  /** The steps of `Updated`, in the states the method passes through. */
  lemma UpdatedSteps(g: Engine, sqrt: real -> real, view: seq<Record>, rows: seq<Row>,
                     priors: seq<Record>, solved: seq<Record>, o: Outcome)
    requires EngineLaws(g)
    requires priors == LookedUp(Ranked(view), rows)
    requires solved == SolveViews(g, priors, RatingMin, GridSize) && o == SolveOutcome(priors, GridSize)
    ensures Updated(g, sqrt, view, rows).outcome == o
    ensures o != Done ==> Updated(g, sqrt, view, rows).records == solved && Updated(g, sqrt, view, rows).rows == rows
    ensures o == Done ==>
              var final := CountedAll(RatedAll(g, solved, sqrt(MeanSquare(Uncertainties(solved))), |view|));
              Updated(g, sqrt, view, rows) == Update(Done, final, rows + Written(final))
  {
  }

  /** The lookup loop: every competitor gets its prior; the flag says whether any is new. */
  method LookUpAll(scores: seq<Competitor>, table: Ledger) returns (noobs: bool)
    requires Distinct(scores)
    modifies scores
    ensures Views(scores) == LookedUp(old(Views(scores)), table.rows)
    ensures noobs == AnyNewcomer(Views(scores))
  {
    ghost var view := Views(scores);
    ghost var target := LookedUp(view, table.rows);
    var n := |scores|;
    noobs := false;
    for i := 0 to n
      invariant forall k :: 0 <= k < n ==> scores[k].Snapshot() == if k < i then target[k] else view[k]
      invariant noobs <==> exists k :: 0 <= k < i && target[k].noob
    {
      Unaliased(scores, i);
      GetCompetitorRating(scores[i], table);
      if scores[i].noob {
        noobs := true;
      }
    }
    SameViews(scores, target);
  }

  lemma SameViews(scores: seq<Competitor>, target: seq<Record>)
    requires |scores| == |target|
    requires forall k :: 0 <= k < |scores| ==> scores[k].Snapshot() == target[k]
    ensures Views(scores) == target
  {
  }

  /** The `new_rating` loop. */
  method RateAll(scores: seq<Competitor>, u: real, n: int, g: Engine)
    requires EngineLaws(g) && Distinct(scores)
    modifies scores
    ensures Views(scores) == RatedAll(g, old(Views(scores)), u, n)
  {
    ghost var view := Views(scores);
    ghost var target := RatedAll(g, view, u, n);
    for i := 0 to |scores|
      invariant forall k :: 0 <= k < |scores| ==> scores[k].Snapshot() == if k < i then target[k] else view[k]
    {
      Unaliased(scores, i);
      var o := NewRating(scores[i], u, scores[i].stageCount, n, RatingMin, RatingMax, g);
    }
    SameViews(scores, target);
  }

  /** The write loop: members are counted and written, in list order. */
  method CountAndWrite(scores: seq<Competitor>, table: Ledger)
    requires Distinct(scores)
    modifies scores, table
    ensures Views(scores) == CountedAll(old(Views(scores)))
    ensures table.rows == old(table.rows) + Written(CountedAll(old(Views(scores))))
  {
    ghost var view := Views(scores);
    ghost var target := CountedAll(view);
    ghost var stored := table.rows;
    for i := 0 to |scores|
      invariant forall k :: 0 <= k < |scores| ==> scores[k].Snapshot() == if k < i then target[k] else view[k]
      invariant table.rows == stored + Written(target[..i])
    {
      Unaliased(scores, i);
      WrittenStep(target, i);
      if scores[i].member.Some? {
        scores[i].CountMatch();
        table.WriteCompetitor(scores[i]);
      }
    }
    assert target[..|scores|] == target;
    SameViews(scores, target);
  }

  lemma WrittenStep(view: seq<Record>, i: nat)
    requires i < |view|
    ensures Written(view[..i + 1]) == Written(view[..i]) + (if view[i].member.Some? then [RowOf(view[i])] else [])
  {
    assert view[..i + 1][..i] == view[..i];
  }

  /** The positions of the competitors with a member number. */
  function Members(view: seq<Record>): set<int>
  {
    set k | 0 <= k < |view| && view[k].member.Some?
  }

  /** Two lists whose entries have the same member numbers have the same member positions. */
  lemma SameMembers(a: seq<Record>, b: seq<Record>)
    requires |a| == |b| && forall k :: 0 <= k < |a| ==> a[k].member == b[k].member
    ensures Members(a) == Members(b)
  {
    assert forall k :: k in Members(a) <==> k in Members(b);
  }

  /** One row per member, in list order. */
  lemma {:induction false} WrittenMembers(view: seq<Record>)
    ensures |Written(view)| == |Members(view)|
    ensures forall r :: r in Written(view) <==> exists k :: 0 <= k < |view| && view[k].member.Some? && r == RowOf(view[k])
  {
    if view != [] {
      var n := |view| - 1;
      var front := view[..n];
      WrittenMembers(front);
      var a := Members(front);
      var b := Members(view);
      assert a == set k | 0 <= k < n && view[k].member.Some?;
      if view[n].member.Some? {
        assert b == a + {n};
      } else {
        assert b == a;
      }
    }
  }

  /** The two lists hold the same member numbers, position by position. */
  predicate SameMemberList(a: seq<Record>, b: seq<Record>)
  {
    |a| == |b| && forall k :: 0 <= k < |a| ==> a[k].member == b[k].member
  }

  /** The two lists hold the same member numbers and match counts, position by position. */
  predicate Aligned(a: seq<Record>, b: seq<Record>)
  {
    SameMemberList(a, b) && forall k :: 0 <= k < |a| ==> a[k].numberOfMatches == b[k].numberOfMatches
  }

  lemma LookedUpMembers(view: seq<Record>, rows: seq<Row>)
    ensures SameMemberList(LookedUp(Ranked(view), rows), view)
  {
    var priors := LookedUp(Ranked(view), rows);
    forall k | 0 <= k < |view|
      ensures priors[k].member == view[k].member
    {
      assert Ranked(view)[k].member == view[k].member;
    }
  }

  lemma SolvedAligned(g: Engine, priors: seq<Record>)
    requires EngineLaws(g)
    ensures Aligned(SolveViews(g, priors, RatingMin, GridSize), priors)
  {
    SolveKeeps(g, priors, RatingMin, GridSize);
  }

  lemma RatedAligned(g: Engine, solved: seq<Record>, u: real, n: int)
    requires EngineLaws(g)
    ensures Aligned(RatedAll(g, solved, u, n), solved)
  {
  }

  lemma CountedFrom(rated: seq<Record>, priors: seq<Record>, view: seq<Record>)
    requires Aligned(rated, priors) && SameMemberList(priors, view)
    ensures SameMemberList(CountedAll(rated), view)
    ensures forall k :: 0 <= k < |view| ==>
              CountedAll(rated)[k].numberOfMatches == priors[k].numberOfMatches + (if view[k].member.Some? then 1 else 0)
  {
  }

  /** After a successful update every competitor's match count went up by one exactly when it
      has a member number, and the table grew by one row per member; after a failed solve the
      table is untouched. */
  lemma CountsFollowMembership(g: Engine, sqrt: real -> real, view: seq<Record>, rows: seq<Row>)
    requires EngineLaws(g)
    ensures var u := Updated(g, sqrt, view, rows);
            var priors := LookedUp(Ranked(view), rows);
            && |u.records| == |view|
            && (u.outcome != Done ==> u.rows == rows)
            && (u.outcome == Done ==>
                  (forall k :: 0 <= k < |view| ==>
                     u.records[k].numberOfMatches == priors[k].numberOfMatches + (if view[k].member.Some? then 1 else 0))
                  && |u.rows| == |rows| + |Members(view)|)
  {
    var priors := LookedUp(Ranked(view), rows);
    var solved := SolveViews(g, priors, RatingMin, GridSize);
    var o := SolveOutcome(priors, GridSize);
    UpdatedSteps(g, sqrt, view, rows, priors, solved, o);
    LookedUpMembers(view, rows);
    SolvedAligned(g, priors);
    if o == Done {
      var rated := RatedAll(g, solved, sqrt(MeanSquare(Uncertainties(solved))), |view|);
      RatedAligned(g, solved, sqrt(MeanSquare(Uncertainties(solved))), |view|);
      CountedFrom(rated, priors, view);
      WrittenMembers(CountedAll(rated));
      SameMembers(CountedAll(rated), view);
    }
  }
}
