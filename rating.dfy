/**
  The rating pipeline of Application/rating.py: the Competitor record, the pairwise
  win/loss ranking, the grid performance solver, the MAP rating update, and the
  match and per-competitor uncertainties.

  Every grid runs over the integer points lo, lo + 1, ..., hi (np.linspace with
  hi - lo + 1 samples). A list of competitors holds distinct objects, as the parser
  creates one object per result line.
*/
module Rating {
  import opened Numerics
  import opened Outcomes
  import opened Config
  import opened EloMmr

  // ---------------------------------------------------------------------------
  // The competitor

  /** One entry of a wins or losses list: the other competitor's place and the
      percent margin `percent_i - percent_j`. */
  datatype Margin = Margin(place: int, margin: real)

  /** The match a competitor's result comes from. */
  datatype Event = Event(matchId: int, matchName: string, matchDate: string, matchDateUnix: int,
                         club: string, clubCode: string)

  /** The value of every field of a Competitor at one moment. */
  datatype Record = Record(
    first: string, last: string, member: Option<string>, division: string, matchType: string,
    event: Event, score: real, percent: real, place: int, stageCount: int,
    noob: bool, rating: real, uncertainty: real, performance: real, lastChange: real,
    numberOfMatches: int, wins: seq<Margin>, losses: seq<Margin>)

  /** A competitor at one match; the pipeline fills in and updates its fields in place. */
  class Competitor {
    var first: string
    var last: string
    var member: Option<string>
    var division: string
    var matchType: string
    var event: Event
    var score: real
    var percent: real
    var place: int
    var stageCount: int
    var noob: bool
    var rating: real
    var uncertainty: real
    var performance: real
    var lastChange: real
    var numberOfMatches: int
    var wins: seq<Margin>
    var losses: seq<Margin>

    function Snapshot(): Record
      reads this
    {
      Record(first, last, member, division, matchType, event, score, percent, place, stageCount,
             noob, rating, uncertainty, performance, lastChange, numberOfMatches, wins, losses)
    }

    /** `wins = ...; losses = ...`. */
    method SetComparisons(win: seq<Margin>, loss: seq<Margin>)
      modifies this
      ensures Snapshot() == old(Snapshot()).(wins := win, losses := loss)
    {
      wins, losses := win, loss;
    }

    /** `performance = ...`. */
    method SetPerformance(p: real)
      modifies this
      ensures Snapshot() == old(Snapshot()).(performance := p)
    {
      performance := p;
    }

    /** `rating = ...` and `last_change = ...`. */
    method SetRating(rating': real, change: real)
      modifies this
      ensures Snapshot() == old(Snapshot()).(rating := rating', lastChange := change)
    {
      rating := rating';
      lastChange := change;
    }

    /** `uncertainty = ...`. */
    method SetUncertainty(u: real)
      modifies this
      ensures Snapshot() == old(Snapshot()).(uncertainty := u)
    {
      uncertainty := u;
    }

    /** `noob`, `rating`, `uncertainty` and `number_of_matches` as the prior lookup sets them. */
    method SetPrior(noob': bool, rating': real, uncertainty': real, matches: int)
      modifies this
      ensures Snapshot() == old(Snapshot()).(noob := noob', rating := rating', uncertainty := uncertainty',
                                             numberOfMatches := matches)
    {
      noob := noob';
      rating := rating';
      uncertainty := uncertainty';
      numberOfMatches := matches;
    }

    /** `number_of_matches += 1`. */
    method CountMatch()
      modifies this
      ensures Snapshot() == old(Snapshot()).(numberOfMatches := old(numberOfMatches) + 1)
    {
      numberOfMatches := numberOfMatches + 1;
    }

    /** A competitor with every field set at once, as the parser fills a fresh object. */
    constructor (r: Record)
      ensures Snapshot() == r
    {
      first, last, member, division, matchType := r.first, r.last, r.member, r.division, r.matchType;
      event, score, percent, place, stageCount := r.event, r.score, r.percent, r.place, r.stageCount;
      noob, rating, uncertainty, performance := r.noob, r.rating, r.uncertainty, r.performance;
      lastChange, numberOfMatches, wins, losses := r.lastChange, r.numberOfMatches, r.wins, r.losses;
    }
  }

  /** The records of a list of competitors. */
  function Views(scores: seq<Competitor>): (v: seq<Record>)
    reads scores
    ensures |v| == |scores|
    ensures forall i :: 0 <= i < |scores| ==> v[i] == scores[i].Snapshot()
  {
    seq(|scores|, i reads scores requires 0 <= i < |scores| => scores[i].Snapshot())
  }

  /** No object occurs twice in the list. */
  predicate Distinct(scores: seq<Competitor>)
  {
    forall i, j :: 0 <= i < j < |scores| ==> scores[i] != scores[j]
  }

  // ---------------------------------------------------------------------------
  // win_loss_ranking

  /** Competitor j as seen from competitor i. */
  function Against(view: seq<Record>, i: nat, j: nat): Margin
    requires i < |view| && j < |view|
  {
    Margin(view[j].place, view[i].percent - view[j].percent)
  }

  /** i's wins among the first n competitors: those placed after i, in list order. */
  function WinsUpTo(view: seq<Record>, i: nat, n: nat): seq<Margin>
    requires i < |view| && n <= |view|
  {
    if n == 0 then []
    else WinsUpTo(view, i, n - 1) + (if view[n - 1].place > view[i].place then [Against(view, i, n - 1)] else [])
  }

  /** i's losses among the first n competitors: those placed before i, in list order. */
  function LossesUpTo(view: seq<Record>, i: nat, n: nat): seq<Margin>
    requires i < |view| && n <= |view|
  {
    if n == 0 then []
    else LossesUpTo(view, i, n - 1) + (if view[n - 1].place < view[i].place then [Against(view, i, n - 1)] else [])
  }

  function Wins(view: seq<Record>, i: nat): seq<Margin>
    requires i < |view|
  {
    WinsUpTo(view, i, |view|)
  }

  function Losses(view: seq<Record>, i: nat): seq<Margin>
    requires i < |view|
  {
    LossesUpTo(view, i, |view|)
  }

  /** Competitor i's record after the ranking: only wins and losses are new. */
  function RankedEntry(view: seq<Record>, i: nat): Record
    requires i < |view|
  {
    view[i].(wins := Wins(view, i), losses := Losses(view, i))
  }

  /** The records after the ranking. */
  function Ranked(view: seq<Record>): (r: seq<Record>)
    ensures |r| == |view|
  {
    seq(|view|, i requires 0 <= i < |view| => RankedEntry(view, i))
  }

  /** `win_loss_ranking(scores)`. */
  method WinLossRanking(scores: seq<Competitor>)
    requires Distinct(scores)
    modifies scores
    ensures Views(scores) == Ranked(old(Views(scores)))
  {
    ghost var view := Views(scores);
    var n := |scores|;
    var places, percents := Standings(scores);
    assert forall k :: 0 <= k < n ==> places[k] == view[k].place && percents[k] == view[k].percent;
    for i := 0 to n
      invariant forall k :: 0 <= k < n ==> scores[k].Snapshot() == if k < i then RankedEntry(view, k) else view[k]
    {
      var win, loss := Compare(places, percents, i);
      CompareMatches(view, places, percents, i, n);
      Unaliased(scores, i);
      scores[i].SetComparisons(win, loss);
    }
    RankedViews(scores, view);
  }

  lemma RankedViews(scores: seq<Competitor>, view: seq<Record>)
    requires |scores| == |view|
    requires forall k :: 0 <= k < |scores| ==> scores[k].Snapshot() == RankedEntry(view, k)
    ensures Views(scores) == Ranked(view)
  {
  }

  /** Position i of a list of distinct objects holds none of the other positions' objects. */
  lemma Unaliased(scores: seq<Competitor>, i: nat)
    requires Distinct(scores) && i < |scores|
    ensures forall k :: 0 <= k < |scores| && k != i ==> scores[k] != scores[i]
  {
  }

  /** The places and percents of the list, which the ranking reads and never writes. */
  method Standings(scores: seq<Competitor>) returns (places: seq<int>, percents: seq<real>)
    ensures |places| == |percents| == |scores|
    ensures forall k :: 0 <= k < |scores| ==> places[k] == scores[k].place && percents[k] == scores[k].percent
  {
    places := seq(|scores|, k requires 0 <= k < |scores| reads scores => scores[k].place);
    percents := seq(|scores|, k requires 0 <= k < |scores| reads scores => scores[k].percent);
  }

  /** The inner loop of the ranking, for competitor i. */
  method Compare(places: seq<int>, percents: seq<real>, i: nat) returns (win: seq<Margin>, loss: seq<Margin>)
    requires |places| == |percents| && i < |places|
    ensures win == CompareUpTo(places, percents, i, |places|, true)
    ensures loss == CompareUpTo(places, percents, i, |places|, false)
  {
    win, loss := [], [];
    for j := 0 to |places|
      invariant win == CompareUpTo(places, percents, i, j, true)
      invariant loss == CompareUpTo(places, percents, i, j, false)
    {
      if places[j] > places[i] {
        win := win + [Margin(places[j], percents[i] - percents[j])];
      }
      if places[j] < places[i] {
        loss := loss + [Margin(places[j], percents[i] - percents[j])];
      }
    }
  }

  /** The entries Compare collects over the first n competitors, as plain columns. */
  function CompareUpTo(places: seq<int>, percents: seq<real>, i: nat, n: nat, after: bool): seq<Margin>
    requires |places| == |percents| && i < |places| && n <= |places|
  {
    if n == 0 then []
    else
      var kept := if after then places[n - 1] > places[i] else places[n - 1] < places[i];
      CompareUpTo(places, percents, i, n - 1, after)
        + (if kept then [Margin(places[n - 1], percents[i] - percents[n - 1])] else [])
  }

  lemma {:induction false} CompareMatches(view: seq<Record>, places: seq<int>, percents: seq<real>, i: nat, n: nat)
    requires |places| == |percents| == |view| && i < |view| && n <= |view|
    requires forall k :: 0 <= k < |view| ==> places[k] == view[k].place && percents[k] == view[k].percent
    ensures CompareUpTo(places, percents, i, n, true) == WinsUpTo(view, i, n)
    ensures CompareUpTo(places, percents, i, n, false) == LossesUpTo(view, i, n)
  {
    if n > 0 {
      CompareMatches(view, places, percents, i, n - 1);
    }
  }

  /** Every entry of a wins list comes from a competitor placed after i, and every competitor
      placed after i gives an entry; likewise for losses and competitors placed before i. */
  lemma {:induction false} RankingMembers(view: seq<Record>, i: nat, n: nat)
    requires i < |view| && n <= |view|
    ensures forall m :: m in WinsUpTo(view, i, n) <==>
              exists j :: 0 <= j < n && view[j].place > view[i].place && m == Against(view, i, j)
    ensures forall m :: m in LossesUpTo(view, i, n) <==>
              exists j :: 0 <= j < n && view[j].place < view[i].place && m == Against(view, i, j)
  {
    if n > 0 {
      RankingMembers(view, i, n - 1);
    }
  }

  /** An entry of i's wins carries a worse place than i's, an entry of its losses a better one;
      so i itself and anyone tied with i are in neither list. */
  lemma RankingSides(view: seq<Record>, i: nat, m: Margin)
    requires i < |view|
    ensures m in Wins(view, i) ==> m.place > view[i].place
    ensures m in Losses(view, i) ==> m.place < view[i].place
  {
    RankingMembers(view, i, |view|);
  }

  /** The places are pairwise different. */
  predicate DistinctPlaces(view: seq<Record>)
  {
    forall j, k :: 0 <= j < k < |view| ==> view[j].place != view[k].place
  }

  /** With distinct places, i is compared with each of the other N - 1 competitors once. */
  lemma {:induction false} RankingCount(view: seq<Record>, i: nat, n: nat)
    requires DistinctPlaces(view)
    requires i < |view| && n <= |view|
    ensures |WinsUpTo(view, i, n)| + |LossesUpTo(view, i, n)| == if i < n then n - 1 else n
  {
    if n > 0 {
      RankingCount(view, i, n - 1);
      if n - 1 != i {
        assert view[n - 1].place != view[i].place;
      }
    }
  }

  /** Margins are antisymmetric: when j is placed after i, i holds (place_j, m) among its wins
      and j holds (place_i, -m) among its losses. */
  lemma RankingAntisymmetric(view: seq<Record>, i: nat, j: nat)
    requires i < |view| && j < |view|
    requires view[j].place > view[i].place
    ensures Against(view, i, j) in Wins(view, i)
    ensures Against(view, j, i) in Losses(view, j)
    ensures Against(view, j, i).margin == -Against(view, i, j).margin
  {
    RankingMembers(view, i, |view|);
    RankingMembers(view, j, |view|);
  }

  // ---------------------------------------------------------------------------
  // performance_rating

  /** The kernel and primitives a rating computation runs on (`method`, np.exp, pdf, cdf). */
  datatype Engine = Engine(exp: real -> real, dens: Densities, kernel: Kernel)

  ghost predicate EngineLaws(g: Engine)
  {
    ExpLaws(g.exp) && DensityLaws(g.dens)
  }

  /** What the solver reads of an opponent: the prior and how many matches it rests on. */
  datatype Prior = Prior(rating: real, uncertainty: real, matches: int)

  function PriorsOf(view: seq<Record>): (p: seq<Prior>)
    ensures |p| == |view|
  {
    seq(|view|, i requires 0 <= i < |view| => Prior(view[i].rating, view[i].uncertainty, view[i].numberOfMatches))
  }

  /** `scores[place - 1]` is a valid Python index for every entry. */
  predicate Reachable(n: nat, entries: seq<Margin>)
  {
    forall t :: 0 <= t < |entries| ==> -(n as int) <= entries[t].place - 1 < n
  }

  /** The pull of one comparison entry on Q at grid point x: the opponent's newcomer weight
      times a mix of its win and loss distributions, with the squashed margin as the share of
      the distribution named by the list (win for `wins`, loss for `losses`). */
  function Influence(g: Engine, o: Prior, margin: real, won: bool, x: real): real
    requires EngineLaws(g)
  {
    var c := Squash(g.exp, Abs(margin), 0.0, PercentFactor);
    var w := WinDistributionAsWritten(g.dens, g.kernel, x, o.rating, o.uncertainty);
    var l := LossDistribution(g.dens, g.kernel, x, o.rating, o.uncertainty);
    Weight(o.matches, NoobPlacement, NoobWeight) * (if won then c * w + (1.0 - c) * l else c * l + (1.0 - c) * w)
  }

  /** The share of a squashed margin is at least one half: the list's own distribution never
      weighs less than the other one. */
  lemma InfluenceLeansToList(g: Engine, margin: real)
    requires EngineLaws(g)
    ensures 0.5 <= Squash(g.exp, Abs(margin), 0.0, PercentFactor) < 1.0
  {
    SquashUpperHalf(g.exp, Abs(margin), 0.0, PercentFactor);
  }

  /** The sum of the pulls of some entries on Q at x. */
  function Pressure(g: Engine, priors: seq<Prior>, entries: seq<Margin>, won: bool, x: real): real
    requires EngineLaws(g) && Reachable(|priors|, entries)
  {
    if entries == [] then 0.0
    else
      var e := entries[|entries| - 1];
      Pressure(g, priors, entries[..|entries| - 1], won, x)
        + Influence(g, PyIndex(priors, e.place - 1), e.margin, won, x)
  }

  /** `Q += ...` for one entry, at every grid point lo, lo + 1, .... */
  function Added(q: seq<real>, g: Engine, o: Prior, margin: real, won: bool, lo: int): (r: seq<real>)
    requires EngineLaws(g)
    ensures |r| == |q|
  {
    seq(|q|, k requires 0 <= k < |q| => q[k] + Influence(g, o, margin, won, (lo + k) as real))
  }

  /** q after `Q += ...` for each of the entries in turn. */
  function Accumulate(q: seq<real>, g: Engine, priors: seq<Prior>, entries: seq<Margin>, won: bool, lo: int): (r: seq<real>)
    requires EngineLaws(g) && Reachable(|priors|, entries)
    ensures |r| == |q|
  {
    if entries == [] then q
    else
      var e := entries[|entries| - 1];
      Added(Accumulate(q, g, priors, entries[..|entries| - 1], won, lo), g, PyIndex(priors, e.place - 1), e.margin, won, lo)
  }

  function Zeros(m: nat): (z: seq<real>)
    ensures |z| == m && forall k :: 0 <= k < m ==> z[k] == 0.0
  {
    seq(m, _ => 0.0)
  }

  /** Q over the grid lo, lo + 1, ..., lo + m - 1, accumulated over the wins, then the losses. */
  function QRow(g: Engine, priors: seq<Prior>, wins: seq<Margin>, losses: seq<Margin>, lo: int, m: nat): (q: seq<real>)
    requires EngineLaws(g) && Reachable(|priors|, wins) && Reachable(|priors|, losses)
    ensures |q| == m
  {
    Accumulate(Accumulate(Zeros(m), g, priors, wins, true, lo), g, priors, losses, false, lo)
  }

  /** Q at each grid point is the pressure of the wins plus the pressure of the losses. */
  lemma QRowAt(g: Engine, priors: seq<Prior>, wins: seq<Margin>, losses: seq<Margin>, lo: int, m: nat, k: nat)
    requires EngineLaws(g) && Reachable(|priors|, wins) && Reachable(|priors|, losses) && k < m
    ensures QRow(g, priors, wins, losses, lo, m)[k]
            == Pressure(g, priors, wins, true, (lo + k) as real) + Pressure(g, priors, losses, false, (lo + k) as real)
  {
    var z := Zeros(m);
    AccumulateAt(z, g, priors, wins, true, lo, k);
    AccumulateAt(Accumulate(z, g, priors, wins, true, lo), g, priors, losses, false, lo, k);
  }

  lemma {:induction false} AccumulateAt(q: seq<real>, g: Engine, priors: seq<Prior>, entries: seq<Margin>, won: bool,
                                        lo: int, k: nat)
    requires EngineLaws(g) && Reachable(|priors|, entries) && k < |q|
    ensures Accumulate(q, g, priors, entries, won, lo)[k] == q[k] + Pressure(g, priors, entries, won, (lo + k) as real)
  {
    if entries != [] {
      var front := entries[..|entries| - 1];
      var e := entries[|entries| - 1];
      assert Reachable(|priors|, front);
      AccumulateAt(q, g, priors, front, won, lo, k);
      var o := PyIndex(priors, e.place - 1);
      AddedAt(Accumulate(q, g, priors, front, won, lo), g, o, e.margin, won, lo, k);
    }
  }

  lemma AddedAt(q: seq<real>, g: Engine, o: Prior, margin: real, won: bool, lo: int, k: nat)
    requires EngineLaws(g) && k < |q|
    ensures Added(q, g, o, margin, won, lo)[k] == q[k] + Influence(g, o, margin, won, (lo + k) as real)
  {
  }

  /** Q of competitor i, as accumulated by the solver's inner loops. */
  method Field(g: Engine, priors: seq<Prior>, wins: seq<Margin>, losses: seq<Margin>, lo: int, m: nat)
    returns (q: seq<real>)
    requires EngineLaws(g) && Reachable(|priors|, wins) && Reachable(|priors|, losses)
    ensures q == QRow(g, priors, wins, losses, lo, m)
  {
    var n := |priors|;
    q := Zeros(m);
    ghost var z := q;
    for j := 0 to |wins|
      invariant q == Accumulate(z, g, priors, wins[..j], true, lo)
    {
      var e := wins[j];
      q := Added(q, g, priors[PyPos(n, e.place - 1)], e.margin, true, lo);
      assert wins[..j + 1][..j] == wins[..j];
    }
    assert wins[..|wins|] == wins;
    ghost var w := q;
    for j := 0 to |losses|
      invariant q == Accumulate(w, g, priors, losses[..j], false, lo)
    {
      var e := losses[j];
      q := Added(q, g, priors[PyPos(n, e.place - 1)], e.margin, false, lo);
      assert losses[..j + 1][..j] == losses[..j];
    }
    assert losses[..|losses|] == losses;
  }

  /** Both lists of competitor i can be read. */
  predicate Playable(view: seq<Record>, i: nat)
    requires i < |view|
  {
    Reachable(|view|, view[i].wins) && Reachable(|view|, view[i].losses)
  }

  /** The grid point, among m points from lo, at the first index that minimises |Q|. */
  function Performance(g: Engine, view: seq<Record>, i: nat, lo: int, m: nat): real
    requires EngineLaws(g) && i < |view| && Playable(view, i) && m > 0
  {
    Located(g, PriorsOf(view), view[i].wins, view[i].losses, lo, m)
  }

  /** The grid point, among m points from lo, at the first index that minimises |Q|. */
  function Located(g: Engine, priors: seq<Prior>, wins: seq<Margin>, losses: seq<Margin>, lo: int, m: nat): real
    requires EngineLaws(g) && Reachable(|priors|, wins) && Reachable(|priors|, losses) && m > 0
  {
    (lo + FirstArgMin(Magnitudes(QRow(g, priors, wins, losses, lo, m)))) as real
  }

  /** One competitor's solve: Q over the grid, then the first point of least |Q|. */
  method Locate(g: Engine, priors: seq<Prior>, wins: seq<Margin>, losses: seq<Margin>, lo: int, m: nat)
    returns (p: real)
    requires EngineLaws(g) && Reachable(|priors|, wins) && Reachable(|priors|, losses) && m > 0
    ensures p == Located(g, priors, wins, losses, lo, m)
  {
    var q := Field(g, priors, wins, losses, lo, m);
    p := (lo + FirstArgMin(Magnitudes(q))) as real;
  }

  /** The first competitor whose lists cannot be read, or the length of the list. */
  function FirstUnplayable(view: seq<Record>, from: nat): (f: nat)
    requires from <= |view|
    ensures from <= f <= |view|
    ensures forall t :: from <= t < f ==> Playable(view, t)
    ensures f < |view| ==> !Playable(view, f)
    decreases |view| - from
  {
    if from == |view| || !Playable(view, from) then from else FirstUnplayable(view, from + 1)
  }

  /** The records after the solver has written the performances of the first f competitors. */
  function Solved(g: Engine, view: seq<Record>, lo: int, m: nat, f: nat): (r: seq<Record>)
    requires EngineLaws(g) && m > 0 && f <= |view|
    requires forall t :: 0 <= t < f ==> Playable(view, t)
    ensures |r| == |view|
  {
    seq(|view|, k requires 0 <= k < |view| =>
      if k < f then view[k].(performance := Performance(g, view, k, lo, m)) else view[k])
  }

  /** What `performance_rating` reports for a grid of hi - lo + 1 points. A grid of negative size
      makes np.linspace raise ValueError; an empty grid makes np.argmin raise it at the first
      competitor, once its lists were read; a place outside the list raises IndexError. */
  function SolveOutcome(view: seq<Record>, m: int): Outcome
  {
    if m < 0 then Raised(ValueError)
    else if m == 0 then
      (if |view| == 0 then Done else if Playable(view, 0) then Raised(ValueError) else Raised(IndexError))
    else if FirstUnplayable(view, 0) == |view| then Done
    else Raised(IndexError)
  }

  /** The records `performance_rating` leaves: the competitors before the first failure have
      their performance written. */
  function SolveViews(g: Engine, view: seq<Record>, lo: int, m: int): seq<Record>
    requires EngineLaws(g)
  {
    if m <= 0 then view else Solved(g, view, lo, m, FirstUnplayable(view, 0))
  }

  /** `performance_rating(scores, min_rating, max_rating, method)`. */
  method PerformanceRating(scores: seq<Competitor>, lo: int, hi: int, g: Engine) returns (o: Outcome)
    requires EngineLaws(g) && Distinct(scores)
    modifies scores
    ensures o == SolveOutcome(old(Views(scores)), hi - lo + 1)
    ensures Views(scores) == SolveViews(g, old(Views(scores)), lo, hi - lo + 1)
  {
    var m := hi - lo + 1;
    if m <= 0 {
      o := EmptyGrid(scores, m);
    } else {
      o := SolveAll(scores, lo, m, g);
    }
  }

  /** The solve on a grid of no points: nothing is written. */
  method EmptyGrid(scores: seq<Competitor>, m: int) returns (o: Outcome)
    requires m <= 0
    ensures o == SolveOutcome(Views(scores), m)
  {
    var n := |scores|;
    if m < 0 || n == 0 {
      return if m < 0 then Raised(ValueError) else Done;
    }
    var r := scores[0].Snapshot();
    return if Reachable(n, r.wins) && Reachable(n, r.losses) then Raised(ValueError) else Raised(IndexError);
  }

  /** The solve on a grid of m > 0 points, competitor by competitor. */
  method SolveAll(scores: seq<Competitor>, lo: int, m: int, g: Engine) returns (o: Outcome)
    requires EngineLaws(g) && Distinct(scores) && m > 0
    modifies scores
    ensures o == SolveOutcome(old(Views(scores)), m)
    ensures Views(scores) == SolveViews(g, old(Views(scores)), lo, m)
  {
    ghost var view := Views(scores);
    var n := |scores|;
    var priors := ReadPriors(scores);
    for i := 0 to n
      invariant forall t :: 0 <= t < i ==> Playable(view, t)
      invariant forall k :: 0 <= k < n ==>
                  scores[k].Snapshot() == if k < i then view[k].(performance := Performance(g, view, k, lo, m)) else view[k]
    {
      var r := scores[i].Snapshot();
      if !(Reachable(n, r.wins) && Reachable(n, r.losses)) {
        SolvedViews(g, scores, view, lo, m, i);
        return Raised(IndexError);
      }
      var p := Locate(g, priors, r.wins, r.losses, lo, m);
      Unaliased(scores, i);
      scores[i].SetPerformance(p);
    }
    SolvedViews(g, scores, view, lo, m, n);
    return Done;
  }

  lemma SolvedViews(g: Engine, scores: seq<Competitor>, view: seq<Record>, lo: int, m: int, f: nat)
    requires EngineLaws(g) && |scores| == |view| && f <= |view| && m > 0
    requires forall t :: 0 <= t < f ==> Playable(view, t)
    requires f < |view| ==> !Playable(view, f)
    requires forall k :: 0 <= k < |view| ==>
               scores[k].Snapshot() == if k < f then view[k].(performance := Performance(g, view, k, lo, m)) else view[k]
    ensures FirstUnplayable(view, 0) == f
    ensures Views(scores) == SolveViews(g, view, lo, m)
  {
    FirstUnplayableIs(view, f);
    var v := Views(scores);
    var w := Solved(g, view, lo, m, f);
    forall k | 0 <= k < |view|
      ensures v[k] == w[k]
    {
    }
  }

  lemma FirstUnplayableIs(view: seq<Record>, f: nat)
    requires f <= |view|
    requires forall t :: 0 <= t < f ==> Playable(view, t)
    requires f < |view| ==> !Playable(view, f)
    ensures FirstUnplayable(view, 0) == f
  {
  }

  /** The priors of the list, read once before the solve; the solve never writes them. */
  method ReadPriors(scores: seq<Competitor>) returns (p: seq<Prior>)
    ensures p == PriorsOf(Views(scores))
  {
    p := seq(|scores|, i requires 0 <= i < |scores| reads scores =>
               Prior(scores[i].rating, scores[i].uncertainty, scores[i].numberOfMatches));
  }

  /** x is one of the m grid points lo, lo + 1, .... */
  predicate OnGrid(x: real, lo: int, m: nat)
  {
    x == x.Floor as real && lo <= x.Floor < lo + m
  }

  /** Q at grid point x: the pressure of the wins plus the pressure of the losses. */
  function QAt(g: Engine, priors: seq<Prior>, wins: seq<Margin>, losses: seq<Margin>, x: real): real
    requires EngineLaws(g) && Reachable(|priors|, wins) && Reachable(|priors|, losses)
  {
    Pressure(g, priors, wins, true, x) + Pressure(g, priors, losses, false, x)
  }

  /** The performance is a grid point, the one where |Q| is smallest, and the first such. */
  lemma LocatedMinimises(g: Engine, priors: seq<Prior>, wins: seq<Margin>, losses: seq<Margin>, lo: int, m: nat)
    requires EngineLaws(g) && Reachable(|priors|, wins) && Reachable(|priors|, losses) && m > 0
    ensures var p := Located(g, priors, wins, losses, lo, m);
            && OnGrid(p, lo, m)
            && (forall x: real :: OnGrid(x, lo, m) ==>
                  Abs(QAt(g, priors, wins, losses, p)) <= Abs(QAt(g, priors, wins, losses, x)))
            && (forall x: real :: OnGrid(x, lo, m) && x < p ==>
                  Abs(QAt(g, priors, wins, losses, p)) < Abs(QAt(g, priors, wins, losses, x)))
  {
    var q := QRow(g, priors, wins, losses, lo, m);
    var j := FirstArgMin(Magnitudes(q));
    forall k | 0 <= k < m
      ensures q[k] == QAt(g, priors, wins, losses, (lo + k) as real)
    {
      QRowAt(g, priors, wins, losses, lo, m, k);
    }
    assert q[j] == QAt(g, priors, wins, losses, (lo + j) as real);
    forall x: real | OnGrid(x, lo, m)
      ensures Abs(q[j]) <= Abs(QAt(g, priors, wins, losses, x))
      ensures x < (lo + j) as real ==> Abs(q[j]) < Abs(QAt(g, priors, wins, losses, x))
    {
      assert q[x.Floor - lo] == QAt(g, priors, wins, losses, x);
    }
  }

  /** A competitor with neither wins nor losses gets the lowest grid point. */
  lemma LocatedWithoutComparisons(g: Engine, priors: seq<Prior>, lo: int, m: nat)
    requires EngineLaws(g) && m > 0
    ensures Located(g, priors, [], [], lo, m) == lo as real
  {
    var q := QRow(g, priors, [], [], lo, m);
    assert q == Zeros(m);
    var a := Magnitudes(q);
    NoStrictlySmallerBefore(a, FirstArgMin(a));
  }

  /** Writing performances changes neither the priors nor the lists the solve reads, so solving
      the solved records again changes nothing and reports the same outcome: the second pass of
      `match_update` for newcomers is idempotent. */
  lemma SecondPassChangesNothing(g: Engine, view: seq<Record>, lo: int, m: int)
    requires EngineLaws(g)
    ensures SolveViews(g, SolveViews(g, view, lo, m), lo, m) == SolveViews(g, view, lo, m)
    ensures SolveOutcome(SolveViews(g, view, lo, m), m) == SolveOutcome(view, m)
  {
    if m > 0 {
      var f := FirstUnplayable(view, 0);
      var w := Solved(g, view, lo, m, f);
      assert PriorsOf(w) == PriorsOf(view);
      assert forall t :: 0 <= t < |view| ==> w[t].wins == view[t].wins && w[t].losses == view[t].losses;
      assert forall t :: 0 <= t < |view| ==> (Playable(w, t) <==> Playable(view, t));
      FirstUnplayableIs(w, f);
      var w2 := Solved(g, w, lo, m, f);
      forall k | 0 <= k < |view|
        ensures w2[k] == w[k]
      {
        if k < f {
          assert Performance(g, w, k, lo, m) == Performance(g, view, k, lo, m);
        }
      }
    }
  }

  /** The solve writes performances and nothing else. */
  lemma SolveKeeps(g: Engine, view: seq<Record>, lo: int, m: int)
    requires EngineLaws(g)
    ensures |SolveViews(g, view, lo, m)| == |view|
    ensures forall k :: 0 <= k < |view| ==>
              SolveViews(g, view, lo, m)[k] == view[k].(performance := SolveViews(g, view, lo, m)[k].performance)
  {
  }

  /** In a sequence of equal values no index has a strictly smaller value before it, but 0. */
  lemma NoStrictlySmallerBefore(a: seq<real>, k: nat)
    requires k < |a| && forall j :: 0 <= j < k ==> a[k] < a[j]
    requires forall j :: 0 <= j < |a| ==> a[j] == a[0]
    ensures k == 0
  {
    assert a[0] == a[k];
  }

  // ---------------------------------------------------------------------------
  // new_rating

  /** `(logistic(count - 1, scale=factor) - 0.5) * 3 + 0.1`: how much a match with that many
      stages, or that many competitors, counts. */
  function Significance(exp: real -> real, count: int, factor: real): real
    requires ExpLaws(exp)
  {
    (Squash(exp, (count - 1) as real, 0.0, factor) - 0.5) * 3.0 + 0.1
  }

  /** A count of one weighs 0.1; any count weighs at least that and less than 1.6, and more
      counts never weigh less. */
  lemma SignificanceRange(exp: real -> real, count: int, more: int, factor: real)
    requires ExpLaws(exp) && 1 <= count <= more && factor >= 0.0
    ensures 0.1 <= Significance(exp, count, factor) <= Significance(exp, more, factor) < 1.6
    ensures count == 1 ==> Significance(exp, count, factor) == 0.1
  {
    SquashUpperHalf(exp, (count - 1) as real, 0.0, factor);
    SquashMonotone(exp, (count - 1) as real, (more - 1) as real, 0.0, factor);
  }

  /** `np.mean([w_stages, w_competitors])`. */
  function Damping(exp: real -> real, stageCount: int, competitorCount: int): real
    requires ExpLaws(exp)
  {
    (Significance(exp, stageCount, StageCountFactor) + Significance(exp, competitorCount, CompetitorCountFactor)) / 2.0
  }

  /** The damping of a real match lies in [0.1, 1.6), and is exactly 0.1 for one stage and one
      competitor; above 1 it carries the rating past the most likely point. */
  lemma DampingRange(exp: real -> real, stageCount: int, competitorCount: int)
    requires ExpLaws(exp) && stageCount >= 1 && competitorCount >= 1
    ensures 0.1 <= Damping(exp, stageCount, competitorCount) < 1.6
    ensures stageCount == 1 && competitorCount == 1 ==> Damping(exp, stageCount, competitorCount) == 0.1
  {
    SignificanceRange(exp, stageCount, stageCount, StageCountFactor);
    SignificanceRange(exp, competitorCount, competitorCount, CompetitorCountFactor);
  }

  /** `skill * perf` at grid point x: the prior density of the rating times the density of the
      performance under the match uncertainty. */
  function PosteriorAt(g: Engine, r: Record, matchUncert: real, x: real): (p: real)
    requires EngineLaws(g)
    ensures p >= 0.0
  {
    var a := g.dens.pdf(g.kernel, x, r.rating, r.uncertainty);
    var b := g.dens.pdf(g.kernel, x, r.performance, matchUncert);
    assert a >= 0.0 && b >= 0.0;
    a * b
  }

  /** `rating_distribution` over the grid of m points from lo. */
  function Posterior(g: Engine, r: Record, matchUncert: real, lo: int, m: nat): (p: seq<real>)
    requires EngineLaws(g)
    ensures |p| == m
  {
    seq(m, k requires 0 <= k < m => PosteriorAt(g, r, matchUncert, (lo + k) as real))
  }

  /** `x[np.argmax(rating_distribution)]`. */
  function MapPoint(g: Engine, r: Record, matchUncert: real, lo: int, m: nat): real
    requires EngineLaws(g) && m > 0
  {
    (lo + FirstArgMax(Posterior(g, r, matchUncert, lo, m))) as real
  }

  /** The damped distance from the rating to the most likely point. */
  function RatingStep(g: Engine, r: Record, matchUncert: real, stageCount: int, competitorCount: int, lo: int, m: nat): real
    requires EngineLaws(g) && m > 0
  {
    Damping(g.exp, stageCount, competitorCount) * (MapPoint(g, r, matchUncert, lo, m) - r.rating)
  }

  /** The record after `new_rating`: the rating moved by the damped distance to the most likely
      point and rounded, the rounded damped distance recorded as the last change. There is no
      clamp to the grid. */
  function Rerated(g: Engine, r: Record, matchUncert: real, stageCount: int, competitorCount: int, lo: int, m: nat): Record
    requires EngineLaws(g) && m > 0
  {
    var d := RatingStep(g, r, matchUncert, stageCount, competitorCount, lo, m);
    r.(rating := RoundHalfEven(r.rating + d) as real, lastChange := RoundHalfEven(d) as real)
  }

  /** `new_rating(competitor, match_uncert, stage_count, competitor_count, min_rating, max_rating,
      method)`. A grid of no points makes np.linspace or np.argmax raise ValueError before anything
      is written. */
  method NewRating(c: Competitor, matchUncert: real, stageCount: int, competitorCount: int, lo: int, hi: int, g: Engine)
    returns (o: Outcome)
    requires EngineLaws(g)
    modifies c
    ensures hi - lo + 1 <= 0 ==> o == Raised(ValueError) && c.Snapshot() == old(c.Snapshot())
    ensures hi - lo + 1 > 0 ==> o == Done
    ensures hi - lo + 1 > 0 ==>
              c.Snapshot() == Rerated(g, old(c.Snapshot()), matchUncert, stageCount, competitorCount, lo, hi - lo + 1)
  {
    var m := hi - lo + 1;
    if m <= 0 {
      return Raised(ValueError);
    }
    var r := c.Snapshot();
    var delta := RatingStep(g, r, matchUncert, stageCount, competitorCount, lo, m);
    c.SetRating(RoundHalfEven(r.rating + delta) as real, RoundHalfEven(delta) as real);
    return Done;
  }

  /** The most likely point is a grid point, no grid point is likelier, and none before it is
      as likely. */
  lemma MapPointMaximises(g: Engine, r: Record, matchUncert: real, lo: int, m: nat)
    requires EngineLaws(g) && m > 0
    ensures var p := MapPoint(g, r, matchUncert, lo, m);
            && OnGrid(p, lo, m)
            && (forall x: real :: OnGrid(x, lo, m) ==> PosteriorAt(g, r, matchUncert, x) <= PosteriorAt(g, r, matchUncert, p))
            && (forall x: real :: OnGrid(x, lo, m) && x < p ==> PosteriorAt(g, r, matchUncert, x) < PosteriorAt(g, r, matchUncert, p))
  {
    var q := Posterior(g, r, matchUncert, lo, m);
    var j := FirstArgMax(q);
    forall x: real | OnGrid(x, lo, m)
      ensures PosteriorAt(g, r, matchUncert, x) <= q[j]
      ensures x < (lo + j) as real ==> PosteriorAt(g, r, matchUncert, x) < q[j]
    {
      assert q[x.Floor - lo] == PosteriorAt(g, r, matchUncert, x);
    }
  }

  /** In a match with at least one stage and one competitor the rating moves towards the most
      likely point, never away from it: the last change has the sign of the distance, and an
      integral rating ends on that side of where it started. Only the rating and the last
      change are written. */
  lemma RatingFollowsEvidence(g: Engine, r: Record, matchUncert: real, stageCount: int, competitorCount: int, lo: int, m: nat)
    requires EngineLaws(g) && m > 0 && stageCount >= 1 && competitorCount >= 1
    ensures var n := Rerated(g, r, matchUncert, stageCount, competitorCount, lo, m);
            var p := MapPoint(g, r, matchUncert, lo, m);
            && n == r.(rating := n.rating, lastChange := n.lastChange)
            && (p >= r.rating ==> n.lastChange >= 0.0)
            && (p <= r.rating ==> n.lastChange <= 0.0)
            && (r.rating == r.rating.Floor as real && p >= r.rating ==> n.rating >= r.rating)
            && (r.rating == r.rating.Floor as real && p <= r.rating ==> n.rating <= r.rating)
  {
    DampingRange(g.exp, stageCount, competitorCount);
    DampedMove(r.rating, MapPoint(g, r, matchUncert, lo, m), Damping(g.exp, stageCount, competitorCount),
               RatingStep(g, r, matchUncert, stageCount, competitorCount, lo, m));
  }

  /** A positive multiple d of the distance from a rating to p: its rounding has the sign of the
      distance, and an integral rating moved by it and rounded stays on p's side. */
  lemma DampedMove(rating: real, p: real, w: real, d: real)
    requires w > 0.0 && d == w * (p - rating)
    ensures p >= rating ==> RoundHalfEven(d) >= 0
    ensures p <= rating ==> RoundHalfEven(d) <= 0
    ensures rating == rating.Floor as real && p >= rating ==> RoundHalfEven(rating + d) as real >= rating
    ensures rating == rating.Floor as real && p <= rating ==> RoundHalfEven(rating + d) as real <= rating
  {
    DampedSign(w, p - rating);
    RoundKeepsSign(d);
    IntegralMove(rating, d);
  }

  lemma IntegralMove(rating: real, d: real)
    ensures rating == rating.Floor as real && d >= 0.0 ==> RoundHalfEven(rating + d) as real >= rating
    ensures rating == rating.Floor as real && d <= 0.0 ==> RoundHalfEven(rating + d) as real <= rating
  {
    RoundShiftBounds(rating.Floor, d);
  }

  lemma DampedSign(w: real, e: real)
    requires w > 0.0
    ensures e >= 0.0 ==> w * e >= 0.0
    ensures e <= 0.0 ==> w * e <= 0.0
  {
    if e > 0.0 {
      MulPos(w, e);
    } else if e < 0.0 {
      MulPos(w, -e);
    }
  }

  /** An integer plus a non-negative (non-positive) amount rounds to no less (no more) than it. */
  lemma RoundShiftBounds(f: int, d: real)
    ensures d >= 0.0 ==> RoundHalfEven(f as real + d) >= f
    ensures d <= 0.0 ==> RoundHalfEven(f as real + d) <= f
  {
  }

  /** For an integral rating the new rating is the old one plus the recorded change, unless the
      damped distance lies half-way between integers and the rating is odd: np.round sends the
      two ties to different even neighbours. */
  lemma ChangeAddsUp(g: Engine, r: Record, matchUncert: real, stageCount: int, competitorCount: int, lo: int, m: nat)
    requires EngineLaws(g) && m > 0 && r.rating == r.rating.Floor as real
    ensures var n := Rerated(g, r, matchUncert, stageCount, competitorCount, lo, m);
            var d := RatingStep(g, r, matchUncert, stageCount, competitorCount, lo, m);
            IsEven(r.rating.Floor) || (d - RoundHalfEven(d) as real != 0.5 && d - RoundHalfEven(d) as real != -0.5)
            ==> n.rating == r.rating + n.lastChange
  {
    var d := RatingStep(g, r, matchUncert, stageCount, competitorCount, lo, m);
    IntegralShift(r.rating, d);
  }

  lemma IntegralShift(rating: real, d: real)
    requires rating == rating.Floor as real
    ensures IsEven(rating.Floor) || (d - RoundHalfEven(d) as real != 0.5 && d - RoundHalfEven(d) as real != -0.5)
            ==> RoundHalfEven(rating + d) as real == rating + RoundHalfEven(d) as real
  {
    if IsEven(rating.Floor) || (d - RoundHalfEven(d) as real != 0.5 && d - RoundHalfEven(d) as real != -0.5) {
      RoundShift(rating.Floor, d);
    }
  }

  /** The odd-rating tie: a rating of 1001 and a damped distance of 0.5 give a new rating of
      1002 but a recorded change of 0. */
  lemma ChangeMissesOddTie()
    ensures RoundHalfEven(1001.0 + 0.5) == 1002
    ensures RoundHalfEven(0.5) == 0
  {
  }

  // ---------------------------------------------------------------------------
  // match_uncertainty and new_uncertainty

  function Uncertainties(view: seq<Record>): (us: seq<real>)
    ensures |us| == |view| && forall i :: 0 <= i < |view| ==> us[i] == view[i].uncertainty
  {
    seq(|view|, i requires 0 <= i < |view| => view[i].uncertainty)
  }

  /** `u ** 2 / N`. */
  function Share(u: real, n: nat): real
    requires n > 0
  {
    u * u / n as real
  }

  /** The terms `u ** 2 / N` the loop adds up. */
  function SquareShares(us: seq<real>): (t: seq<real>)
    ensures |t| == |us| && forall i :: 0 <= i < |us| ==> t[i] == Share(us[i], |us|)
  {
    seq(|us|, i requires 0 <= i < |us| => Share(us[i], |us|))
  }

  /** The mean of the squared uncertainties. */
  function MeanSquare(us: seq<real>): real
  {
    Sum(SquareShares(us))
  }

  /** `match_uncertainty(scores)`: the root mean square of the competitors' uncertainties. */
  method MatchUncertainty(scores: seq<Competitor>, sqrt: real -> real) returns (u: real)
    requires SqrtLaws(sqrt)
    ensures u == sqrt(MeanSquare(Uncertainties(Views(scores))))
  {
    var us := ReadUncertainties(scores);
    var n := |us|;
    var uSqr := 0.0;
    ghost var t := SquareShares(us);
    for i := 0 to n
      invariant uSqr == Sum(t[..i])
    {
      SumStep(t, i);
      uSqr := uSqr + Share(us[i], n);
    }
    assert t[..n] == t;
    u := sqrt(uSqr);
  }

  method ReadUncertainties(scores: seq<Competitor>) returns (us: seq<real>)
    ensures us == Uncertainties(Views(scores))
  {
    us := seq(|scores|, i requires 0 <= i < |scores| reads scores => scores[i].uncertainty);
  }

  /** The root mean square is the non-negative number whose square is the mean square; it is 0
      for an empty match. */
  lemma RmsRoot(sqrt: real -> real, us: seq<real>)
    requires SqrtLaws(sqrt)
    ensures var u := sqrt(MeanSquare(us));
            && u >= 0.0 && u * u == MeanSquare(us)
            && (us == [] ==> u == 0.0)
  {
    MeanSquareNonNegative(us);
    if us == [] {
      SqrtUnique(sqrt, 0.0, 0.0);
    }
  }

  /** The root mean square of non-negative uncertainties lies between the smallest and the
      largest of them. */
  lemma RmsBetween(u: real, us: seq<real>)
    requires |us| > 0 && forall i :: 0 <= i < |us| ==> us[i] >= 0.0
    requires u >= 0.0 && u * u == MeanSquare(us)
    ensures MinOf(us) <= u <= MaxOf(us)
  {
    var lo, hi := MinOf(us), MaxOf(us);
    assert 0.0 <= lo <= us[0] <= hi;
    MeanSquareBounds(us, lo, hi);
    RootBounds(u, MeanSquare(us), lo, hi);
  }

  lemma MeanSquareNonNegative(us: seq<real>)
    ensures MeanSquare(us) >= 0.0
  {
    var t := SquareShares(us);
    forall i | 0 <= i < |us|
      ensures t[i] >= 0.0
    {
      SquareShareNonNegative(us[i], |us|);
    }
    SumNonNegative(t);
  }

  lemma SquareShareNonNegative(x: real, n: nat)
    requires n > 0
    ensures Share(x, n) >= 0.0
  {
    assert x * x >= 0.0;
  }

  /** With every uncertainty in [lo, hi] and lo >= 0, the mean square lies in [lo², hi²]. */
  lemma MeanSquareBounds(us: seq<real>, lo: real, hi: real)
    requires |us| > 0 && 0.0 <= lo && forall i :: 0 <= i < |us| ==> lo <= us[i] <= hi
    ensures lo * lo <= MeanSquare(us) <= hi * hi
  {
    var t := SquareShares(us);
    var n := |us| as real;
    forall i | 0 <= i < |us|
      ensures lo * lo / n <= t[i] <= hi * hi / n
    {
      ShareBounds(us[i], lo, hi, |us|);
    }
    SumBounds(t, lo * lo / n, hi * hi / n);
    Cancel(lo * lo, n);
    Cancel(hi * hi, n);
  }

  lemma ShareBounds(x: real, lo: real, hi: real, n: nat)
    requires 0.0 <= lo <= x <= hi && n > 0
    ensures lo * lo / n as real <= Share(x, n) <= hi * hi / n as real
  {
    SquareMonotone(lo, x);
    SquareMonotone(x, hi);
    DivMono(lo * lo, x * x, n as real);
    DivMono(x * x, hi * hi, n as real);
  }

  lemma Cancel(x: real, n: real)
    requires n > 0.0
    ensures n * (x / n) == x
  {
  }

  /** A non-negative number whose square lies in [lo², hi²] lies in [lo, hi]. */
  lemma RootBounds(u: real, y: real, lo: real, hi: real)
    requires u >= 0.0 && u * u == y && 0.0 <= lo <= hi && lo * lo <= y <= hi * hi
    ensures lo <= u <= hi
  {
    SquareMonotone(lo, u);
    SquareMonotone(u, hi);
  }

  /** `pseudo_rms(u1, u2)`. */
  function PseudoRms(sqrt: real -> real, u1: real, u2: real): real
  {
    0.5 * sqrt(u1 * u1 + u2 * u2)
  }

  /** Four times the square of the pseudo-RMS is the sum of the squares, so it is half the
      true root mean square of the two, and no larger than the larger of them. */
  lemma PseudoRmsHalves(sqrt: real -> real, u1: real, u2: real)
    requires SqrtLaws(sqrt)
    ensures var p := PseudoRms(sqrt, u1, u2);
            && p >= 0.0
            && 4.0 * p * p == u1 * u1 + u2 * u2
            && (u1 >= 0.0 && u2 >= 0.0 ==> p <= Max(u1, u2))
  {
    var s := sqrt(u1 * u1 + u2 * u2);
    var p := 0.5 * s;
    assert 4.0 * p * p == s * s;
    if u1 >= 0.0 && u2 >= 0.0 {
      var h := Max(u1, u2);
      SquareMonotone(u1, h);
      SquareMonotone(u2, h);
      assert p * p <= h * h;
      SquareMonotone(p, h);
    }
  }

  /** The records after `new_uncertainty`: every uncertainty replaced by its pseudo-RMS with the
      match uncertainty. */
  function Shrunk(sqrt: real -> real, view: seq<Record>, matchUncert: real): (r: seq<Record>)
    ensures |r| == |view|
  {
    seq(|view|, i requires 0 <= i < |view| =>
      view[i].(uncertainty := PseudoRms(sqrt, view[i].uncertainty, matchUncert)))
  }

  /** `new_uncertainty(scores, match_uncertainty)`. */
  method NewUncertainty(scores: seq<Competitor>, matchUncert: real, sqrt: real -> real)
    requires Distinct(scores)
    modifies scores
    ensures Views(scores) == Shrunk(sqrt, old(Views(scores)), matchUncert)
  {
    ghost var view := Views(scores);
    var n := |scores|;
    for i := 0 to n
      invariant forall k :: 0 <= k < n ==>
                  scores[k].Snapshot() == if k < i then Shrunk(sqrt, view, matchUncert)[k] else view[k]
    {
      var u := PseudoRms(sqrt, scores[i].uncertainty, matchUncert);
      Unaliased(scores, i);
      scores[i].SetUncertainty(u);
    }
    ShrunkViews(sqrt, scores, view, matchUncert);
  }

  lemma ShrunkViews(sqrt: real -> real, scores: seq<Competitor>, view: seq<Record>, matchUncert: real)
    requires |scores| == |view|
    requires forall k :: 0 <= k < |view| ==> scores[k].Snapshot() == Shrunk(sqrt, view, matchUncert)[k]
    ensures Views(scores) == Shrunk(sqrt, view, matchUncert)
  {
  }
}
