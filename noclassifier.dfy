/**
  `noclassifier` of Utilities/practiscore.py on a loaded match: every competitor's match
  points are recounted over the stages that are not classifiers, each division's best score
  becomes its 100 percent, the competitors are re-ranked division by division, and the
  classifier stages are dropped.

  The loaded JSON is a `Match` value; its `overall` entries carry the fields the rescoring
  and `mmr_format` read and write.
*/
module Rescore {
  import opened Numerics
  import opened Outcomes

  /** One entry of `overall`. */
  datatype Entry = Entry(competitor: int, uspsaNum: string, first: string, last: string,
                         division: string, matchPoints: real, place: int, percent: real)

  /** One entry of `stages`. */
  datatype Stage = Stage(number: int, name: string, classifier: bool)

  /** One entry of `scores`: a competitor's result on a stage. */
  datatype Score = Score(stage: int, competitor: int, stagePoints: real)

  /** The loaded match file. */
  datatype Match = Match(id: int, name: string, date: string, unix: int, club: string, clubCode: string,
                         overall: seq<Entry>, stages: seq<Stage>, scores: seq<Score>)

  predicate NoDup<T(==)>(s: seq<T>)
  {
    forall i, j :: 0 <= i < j < |s| ==> s[i] != s[j]
  }

  // ---------------------------------------------------------------------------
  // The first loop: match points reset, divisions collected

  function Zeroed(c: seq<Entry>): (z: seq<Entry>)
    ensures |z| == |c| && forall k :: 0 <= k < |c| ==> z[k] == c[k].(matchPoints := 0.0)
  {
    seq(|c|, k requires 0 <= k < |c| => c[k].(matchPoints := 0.0))
  }

  /** The divisions of the list, each once, in the order they first appear. */
  function Divisions(c: seq<Entry>): (d: seq<string>)
    ensures NoDup(d)
    ensures forall x :: x in d <==> exists k :: 0 <= k < |c| && c[k].division == x
  {
    if c == [] then []
    else
      var n := |c| - 1;
      var front := Divisions(c[..n]);
      assert forall k :: 0 <= k < n ==> c[..n][k] == c[k];
      if c[n].division in front then front else front + [c[n].division]
  }

  /** Every competitor of a division listed later appears after some competitor of each
      division listed earlier: the divisions are in order of first appearance. */
  lemma {:induction false} DivisionsInOrder(c: seq<Entry>)
    ensures forall i, j, k :: 0 <= i < j < |Divisions(c)| && 0 <= k < |c| && c[k].division == Divisions(c)[j]
              ==> exists e :: 0 <= e < k && c[e].division == Divisions(c)[i]
  {
    if c != [] {
      var n := |c| - 1;
      var front := c[..n];
      DivisionsInOrder(front);
      var d := Divisions(c);
      var df := Divisions(front);
      assert forall t :: 0 <= t < |df| ==> d[t] == df[t];
      forall i, j, k | 0 <= i < j < |d| && 0 <= k < |c| && c[k].division == d[j]
        ensures exists e :: 0 <= e < k && c[e].division == d[i]
      {
        assert d[i] == df[i];
        if k < n {
          assert front[k].division == d[j];
          if j < |df| {
            var e :| 0 <= e < k && front[e].division == df[i];
            assert c[e].division == d[i];
          } else {
            assert false;
          }
        } else if j < |df| {
          var k' :| 0 <= k' < n && front[k'].division == df[j];
          var e :| 0 <= e < k' && front[e].division == df[i];
          assert c[e].division == d[i];
        } else {
          assert df[i] in df;
          var e :| 0 <= e < n && front[e].division == df[i];
          assert c[e].division == d[i];
        }
      }
    }
  }

  /** The loop over `competitors`: match points set to 0 and the divisions collected. */
  method ZeroPoints(overall: seq<Entry>) returns (c: seq<Entry>, divisions: seq<string>)
    ensures c == Zeroed(overall) && divisions == Divisions(overall)
  {
    c := overall;
    divisions := [];
    for i := 0 to |c|
      invariant |c| == |overall|
      invariant forall k :: 0 <= k < |c| ==> c[k] == if k < i then overall[k].(matchPoints := 0.0) else overall[k]
      invariant divisions == Divisions(overall[..i])
    {
      c := c[i := c[i].(matchPoints := 0.0)];
      assert overall[..i + 1][..i] == overall[..i];
      if c[i].division !in divisions {
        divisions := divisions + [c[i].division];
      }
    }
    assert overall[..|overall|] == overall;
  }

  // ---------------------------------------------------------------------------
  // The stages that are not classifiers

  /** The numbers of the stages that are not classifiers, in stage order. */
  function Unclassified(stages: seq<Stage>): (u: seq<int>)
    ensures forall x :: x in u <==> exists k :: 0 <= k < |stages| && !stages[k].classifier && stages[k].number == x
  {
    if stages == [] then []
    else
      var n := |stages| - 1;
      assert forall k :: 0 <= k < n ==> stages[..n][k] == stages[k];
      Unclassified(stages[..n]) + (if !stages[n].classifier then [stages[n].number] else [])
  }

  method UnclassifiedStages(stages: seq<Stage>) returns (u: seq<int>)
    ensures u == Unclassified(stages)
  {
    u := [];
    for i := 0 to |stages|
      invariant u == Unclassified(stages[..i])
    {
      assert stages[..i + 1][..i] == stages[..i];
      if !stages[i].classifier {
        u := u + [stages[i].number];
      }
    }
    assert stages[..|stages|] == stages;
  }

  /** The stages whose number is one of the kept numbers, in stage order. */
  function KeptStages(stages: seq<Stage>, uncl: seq<int>): seq<Stage>
  {
    if stages == [] then []
    else
      var n := |stages| - 1;
      assert stages == stages[..n] + [stages[n]];
      KeptStages(stages[..n], uncl) + (if stages[n].number in uncl then [stages[n]] else [])
  }

  /** One more stage adds itself when its number is kept. */
  lemma KeptStagesSnoc(a: seq<Stage>, x: Stage, uncl: seq<int>)
    ensures KeptStages(a + [x], uncl) == KeptStages(a, uncl) + (if x.number in uncl then [x] else [])
  {
    assert (a + [x])[..|a|] == a;
  }

  /** The new stage list holds exactly the stages with a kept number. */
  lemma {:induction false} KeptStagesMembers(stages: seq<Stage>, uncl: seq<int>)
    ensures forall x :: x in KeptStages(stages, uncl) <==> x in stages && x.number in uncl
  {
    if stages != [] {
      var front := stages[..|stages| - 1];
      var x := stages[|stages| - 1];
      assert stages == front + [x];
      KeptStagesMembers(front, uncl);
      KeptStagesSnoc(front, x, uncl);
    }
  }

  /** The selection keeps stage order and repeats nothing: over two joined stage lists it is
      the two selections, joined. */
  lemma {:induction false} KeptStagesAppend(a: seq<Stage>, b: seq<Stage>, uncl: seq<int>)
    ensures KeptStages(a + b, uncl) == KeptStages(a, uncl) + KeptStages(b, uncl)
  {
    if b == [] {
      assert a + b == a;
    } else {
      var front := b[..|b| - 1];
      var x := b[|b| - 1];
      assert b == front + [x];
      assert a + b == (a + front) + [x];
      KeptStagesAppend(a, front, uncl);
      KeptStagesSnoc(a + front, x, uncl);
      KeptStagesSnoc(front, x, uncl);
    }
  }

  /** One stage is kept exactly when its number is a kept number. */
  lemma KeptStagesOne(s: Stage, uncl: seq<int>)
    ensures KeptStages([s], uncl) == if s.number in uncl then [s] else []
  {
    assert [s][..0] == [];
  }

  /** The `new_stages` loop. */
  method KeepStages(stages: seq<Stage>, uncl: seq<int>) returns (r: seq<Stage>)
    ensures r == KeptStages(stages, uncl)
  {
    r := [];
    for i := 0 to |stages|
      invariant r == KeptStages(stages[..i], uncl)
    {
      assert stages[..i + 1][..i] == stages[..i];
      if stages[i].number in uncl {
        r := r + [stages[i]];
      }
    }
    assert stages[..|stages|] == stages;
  }

  // ---------------------------------------------------------------------------
  // The stage points, routed to `competitors[score['competitor'] - 1]`

  /** Competitor number `number` names a position of a list of len (Python's `[number - 1]`,
      negative indices counting from the end). */
  predicate Routable(number: int, len: nat)
  {
    -(len as int) <= number - 1 < len
  }

  /** The scores added one after the other; a score on a kept stage whose competitor number
      names no position raises IndexError. */
  function Tally(c: seq<Entry>, scores: seq<Score>, uncl: seq<int>): (r: Result<seq<Entry>>)
    ensures r.Ok? ==> |r.value| == |c|
    ensures r.Err? ==> r.error == IndexError
  {
    if scores == [] then Ok(c)
    else
      var n := |scores| - 1;
      var s := scores[n];
      match Tally(c, scores[..n], uncl)
      case Err(e) => Err(e)
      case Ok(t) =>
        if s.stage !in uncl then Ok(t)
        else if Routable(s.competitor, |t|) then
          var k := PyPos(|t|, s.competitor - 1);
          Ok(t[k := t[k].(matchPoints := t[k].matchPoints + s.stagePoints)])
        else Err(IndexError)
  }

  /** The stage points the scores route to position j. */
  function Routed(scores: seq<Score>, uncl: seq<int>, len: nat, j: nat): real
  {
    if scores == [] then 0.0
    else
      var n := |scores| - 1;
      var s := scores[n];
      Routed(scores[..n], uncl, len, j)
      + (if s.stage in uncl && Routable(s.competitor, len) && PyPos(len, s.competitor - 1) == j then s.stagePoints else 0.0)
  }

  /** Each competitor's points went up by the points of the kept-stage scores routed to it, and
      nothing else changed. */
  lemma {:induction false} TallyAt(c: seq<Entry>, scores: seq<Score>, uncl: seq<int>)
    requires Tally(c, scores, uncl).Ok?
    ensures forall j :: 0 <= j < |c| ==>
              Tally(c, scores, uncl).value[j] == c[j].(matchPoints := c[j].matchPoints + Routed(scores, uncl, |c|, j))
  {
    if scores != [] {
      var n := |scores| - 1;
      TallyAt(c, scores[..n], uncl);
    }
  }

  /** The tally raises exactly when some score on a kept stage names no competitor. */
  lemma {:induction false} TallyFails(c: seq<Entry>, scores: seq<Score>, uncl: seq<int>)
    ensures Tally(c, scores, uncl).Err? <==>
            exists k :: 0 <= k < |scores| && scores[k].stage in uncl && !Routable(scores[k].competitor, |c|)
  {
    if scores != [] {
      var n := |scores| - 1;
      TallyFails(c, scores[..n], uncl);
      assert forall k :: 0 <= k < n ==> scores[..n][k] == scores[k];
    }
  }

  /** Once a prefix of the scores raised, the whole tally raised. */
  lemma {:induction false} TallyStaysFailed(c: seq<Entry>, scores: seq<Score>, uncl: seq<int>, i: nat)
    requires i <= |scores| && Tally(c, scores[..i], uncl).Err?
    ensures Tally(c, scores, uncl).Err?
    decreases |scores|
  {
    if i == |scores| {
      assert scores[..i] == scores;
    } else {
      var n := |scores| - 1;
      assert scores[..n][..i] == scores[..i];
      TallyStaysFailed(c, scores[..n], uncl, i);
    }
  }

  /** The loop over `scores`. */
  method TallyScores(c: seq<Entry>, scores: seq<Score>, uncl: seq<int>) returns (r: Result<seq<Entry>>)
    ensures r == Tally(c, scores, uncl)
  {
    var t := c;
    for i := 0 to |scores|
      invariant Tally(c, scores[..i], uncl) == Ok(t)
    {
      assert scores[..i + 1][..i] == scores[..i];
      var s := scores[i];
      if s.stage in uncl {
        if !Routable(s.competitor, |t|) {
          TallyStaysFailed(c, scores, uncl, i + 1);
          return Err(IndexError);
        }
        var k := PyPos(|t|, s.competitor - 1);
        t := t[k := t[k].(matchPoints := t[k].matchPoints + s.stagePoints)];
      }
    }
    assert scores[..|scores|] == scores;
    return Ok(t);
  }

  // ---------------------------------------------------------------------------
  // hundo: a division's best score

  /** The best match points of the division, and 0 when none is positive. */
  function Hundo(c: seq<Entry>, div: string): (h: real)
    ensures h >= 0.0
    ensures forall k :: 0 <= k < |c| && c[k].division == div ==> c[k].matchPoints <= h
    ensures h == 0.0 || exists k :: 0 <= k < |c| && c[k].division == div && c[k].matchPoints == h
  {
    if c == [] then 0.0
    else
      var n := |c| - 1;
      var h := Hundo(c[..n], div);
      assert forall k :: 0 <= k < n ==> c[..n][k] == c[k];
      if c[n].division == div && c[n].matchPoints > h then c[n].matchPoints else h
  }

  /** `hundo(results, div)`. */
  method HundoOf(c: seq<Entry>, div: string) returns (h: real)
    ensures h == Hundo(c, div)
  {
    h := 0.0;
    for i := 0 to |c|
      invariant h == Hundo(c[..i], div)
    {
      assert c[..i + 1][..i] == c[..i];
      if c[i].division == div && c[i].matchPoints > h {
        h := c[i].matchPoints;
      }
    }
    assert c[..|c|] == c;
  }

  function Hundos(c: seq<Entry>, divs: seq<string>): (hs: seq<real>)
    ensures |hs| == |divs| && forall i :: 0 <= i < |divs| ==> hs[i] == Hundo(c, divs[i])
  {
    seq(|divs|, i requires 0 <= i < |divs| => Hundo(c, divs[i]))
  }

  /** The `hundos` loop. */
  method HundoList(c: seq<Entry>, divs: seq<string>) returns (hs: seq<real>)
    ensures hs == Hundos(c, divs)
  {
    hs := [];
    for i := 0 to |divs|
      invariant |hs| == i && forall t :: 0 <= t < i ==> hs[t] == Hundo(c, divs[t])
    {
      var h := HundoOf(c, divs[i]);
      hs := hs + [h];
    }
  }

  // ---------------------------------------------------------------------------
  // Percents

  /** `points / hundo * 100`, and 0 when the division's best score is 0 (ZeroDivisionError). */
  function Percent(points: real, hundo: real): real
  {
    if hundo == 0.0 then 0.0 else points / hundo * 100.0
  }

  /** With a positive best score, a competitor at most that good gets at most 100, and exactly
      100 when it has the best score. */
  lemma PercentBounds(points: real, hundo: real)
    requires hundo > 0.0 && points <= hundo
    ensures Percent(points, hundo) <= 100.0
    ensures Percent(points, hundo) == 100.0 <==> points == hundo
  {
    assert points / hundo <= 1.0;
    if points / hundo * 100.0 == 100.0 {
      assert points / hundo == 1.0;
    }
  }

  /** `divisions.index(x)`. */
  function IndexOf(s: seq<string>, x: string): (i: nat)
    requires x in s
    ensures i < |s| && s[i] == x
    ensures forall j :: 0 <= j < i ==> s[j] != x
  {
    if s[0] == x then 0 else 1 + IndexOf(s[1..], x)
  }

  /** Every competitor's percent against the best score of its own division. */
  function Scored(t: seq<Entry>, divs: seq<string>, hs: seq<real>): (s: seq<Entry>)
    requires |hs| == |divs| && forall k :: 0 <= k < |t| ==> t[k].division in divs
    ensures |s| == |t|
  {
    seq(|t|, k requires 0 <= k < |t| => t[k].(percent := Percent(t[k].matchPoints, hs[IndexOf(divs, t[k].division)])))
  }

  /** The percent loop. */
  method ScorePercents(t: seq<Entry>, divs: seq<string>, hs: seq<real>) returns (s: seq<Entry>)
    requires |hs| == |divs| && forall k :: 0 <= k < |t| ==> t[k].division in divs
    ensures s == Scored(t, divs, hs)
  {
    s := t;
    for i := 0 to |t|
      invariant |s| == |t|
      invariant forall k :: 0 <= k < |t| ==>
                  s[k] == if k < i then t[k].(percent := Percent(t[k].matchPoints, hs[IndexOf(divs, t[k].division)])) else t[k]
    {
      s := s[i := s[i].(percent := Percent(s[i].matchPoints, hs[IndexOf(divs, s[i].division)]))];
    }
  }

  // ---------------------------------------------------------------------------
  // sorted(..., key=percent, reverse=True): a stable sort into non-increasing percent

  predicate Descending(s: seq<Entry>)
  {
    forall i, j :: 0 <= i < j < |s| ==> s[i].percent >= s[j].percent
  }

  /** x put into a non-increasing list after every entry with at least its percent. */
  function Insert(x: Entry, s: seq<Entry>): (r: seq<Entry>)
    requires Descending(s)
    ensures |r| == |s| + 1 && (r[0] == x || (s != [] && r[0] == s[0]))
    ensures Descending(r) && multiset(r) == multiset(s) + multiset{x}
  {
    if s == [] then [x]
    else if s[0].percent < x.percent then
      DescendingCons(x, s);
      [x] + s
    else
      var rest := Insert(x, s[1..]);
      assert s == [s[0]] + s[1..];
      DescendingCons(s[0], rest);
      [s[0]] + rest
  }

  lemma DescendingCons(h: Entry, rest: seq<Entry>)
    requires Descending(rest) && (rest == [] || h.percent >= rest[0].percent)
    ensures Descending([h] + rest)
  {
    var r := [h] + rest;
    forall i, j | 0 <= i < j < |r|
      ensures r[i].percent >= r[j].percent
    {
      if i == 0 {
        assert rest[0].percent >= rest[j - 1].percent;
      }
    }
  }

  /** `sorted(s, key=lambda d: d['percent'], reverse=True)`. */
  function SortDesc(s: seq<Entry>): (r: seq<Entry>)
    ensures Descending(r) && multiset(r) == multiset(s)
  {
    if s == [] then []
    else
      var n := |s| - 1;
      assert s == s[..n] + [s[n]];
      Insert(s[n], SortDesc(s[..n]))
  }

  /** The entries with percent p, in list order. */
  function WithPercent(s: seq<Entry>, p: real): seq<Entry>
  {
    if s == [] then [] else (if s[0].percent == p then [s[0]] else []) + WithPercent(s[1..], p)
  }

  /** The entry itself when it has percent p, else nothing. */
  function Tag(e: Entry, p: real): seq<Entry>
  {
    if e.percent == p then [e] else []
  }

  lemma WithPercentCons(h: Entry, t: seq<Entry>, p: real)
    ensures WithPercent([h] + t, p) == Tag(h, p) + WithPercent(t, p)
  {
    assert ([h] + t)[0] == h;
    assert ([h] + t)[1..] == t;
  }

  lemma {:induction false} WithPercentAppend(a: seq<Entry>, b: seq<Entry>, p: real)
    ensures WithPercent(a + b, p) == WithPercent(a, p) + WithPercent(b, p)
  {
    if a == [] {
      assert a + b == b;
    } else {
      WithPercentAppend(a[1..], b, p);
      FirstSplit(a);
      assert a + b == [a[0]] + (a[1..] + b);
      WithPercentCons(a[0], a[1..] + b, p);
      WithPercentCons(a[0], a[1..], p);
    }
  }

  lemma {:induction false} NoneAbove(s: seq<Entry>, p: real)
    requires Descending(s) && (s == [] || s[0].percent < p)
    ensures WithPercent(s, p) == []
  {
    if s != [] {
      NoneAbove(s[1..], p);
    }
  }

  lemma {:induction false} InsertStable(x: Entry, s: seq<Entry>, p: real)
    requires Descending(s)
    ensures WithPercent(Insert(x, s), p) == WithPercent(s, p) + Tag(x, p)
  {
    if s == [] {
      WithPercentCons(x, [], p);
    } else if s[0].percent < x.percent {
      InsertFirst(x, s, p);
    } else {
      var rest := s[1..];
      InsertStable(x, rest, p);
      FirstSplit(s);
      assert Insert(x, s) == [s[0]] + Insert(x, rest);
      ConsTagged(s[0], Insert(x, rest), rest, Tag(x, p), p);
    }
  }

  /** x goes in front of a list whose entries all have a smaller percent. */
  lemma InsertFirst(x: Entry, s: seq<Entry>, p: real)
    requires Descending(s) && s != [] && s[0].percent < x.percent
    ensures WithPercent(Insert(x, s), p) == WithPercent(s, p) + Tag(x, p)
  {
    assert Insert(x, s) == [x] + s;
    NoneAbove(s, x.percent);
    WithPercentCons(x, s, p);
  }

  /** Putting the same head on two lists keeps a relation between their entries of percent p. */
  lemma ConsTagged(h: Entry, a: seq<Entry>, b: seq<Entry>, t: seq<Entry>, p: real)
    requires WithPercent(a, p) == WithPercent(b, p) + t
    ensures WithPercent([h] + a, p) == WithPercent([h] + b, p) + t
  {
    WithPercentCons(h, a, p);
    WithPercentCons(h, b, p);
  }

  lemma FirstSplit<T>(s: seq<T>)
    requires s != []
    ensures s == [s[0]] + s[1..]
  {
  }

  lemma LastSplit<T>(s: seq<T>)
    requires s != []
    ensures s == s[..|s| - 1] + [s[|s| - 1]]
  {
  }

  /** The sort is stable: the entries of any one percent keep their order. */
  lemma {:induction false} SortStable(s: seq<Entry>, p: real)
    ensures WithPercent(SortDesc(s), p) == WithPercent(s, p)
  {
    if s != [] {
      var n := |s| - 1;
      var front := s[..n];
      LastSplit(s);
      assert SortDesc(s) == Insert(s[n], SortDesc(front));
      SortStable(front, p);
      InsertStable(s[n], SortDesc(front), p);
      WithPercentAppend(front, [s[n]], p);
      WithPercentCons(s[n], [], p);
      assert [s[n]] + [] == [s[n]];
    }
  }

  // ---------------------------------------------------------------------------
  // The re-ranking

  /** The competitors of division d, in list order. */
  function InDivision(c: seq<Entry>, d: string): (r: seq<Entry>)
    ensures forall k :: 0 <= k < |r| ==> r[k].division == d
  {
    if c == [] then []
    else
      var n := |c| - 1;
      InDivision(c[..n], d) + (if c[n].division == d then [c[n]] else [])
  }

  /** The `div_competitors` loop. */
  method Collect(c: seq<Entry>, d: string) returns (g: seq<Entry>)
    ensures g == InDivision(c, d)
  {
    g := [];
    for i := 0 to |c|
      invariant g == InDivision(c[..i], d)
    {
      assert c[..i + 1][..i] == c[..i];
      if c[i].division == d {
        g := g + [c[i]];
      }
    }
    assert c[..|c|] == c;
  }

  /** The list with places 1, 2, ... written in order. */
  function Placed(g: seq<Entry>): (r: seq<Entry>)
    ensures |r| == |g|
  {
    seq(|g|, i requires 0 <= i < |g| => g[i].(place := i + 1))
  }

  /** One division's part of `match_results`: its competitors sorted and placed. */
  function Block(c: seq<Entry>, d: string): (b: seq<Entry>)
    ensures forall k :: 0 <= k < |b| ==> b[k].division == d
  {
    var g := InDivision(c, d);
    var r := SortDesc(g);
    assert forall k :: 0 <= k < |r| ==> r[k] in multiset(g);
    Placed(r)
  }

  /** `match_results`: division by division, its competitors sorted and placed. */
  function Regrouped(c: seq<Entry>, divs: seq<string>): seq<Entry>
  {
    if divs == [] then []
    else
      var n := |divs| - 1;
      Regrouped(c, divs[..n]) + Block(c, divs[n])
  }

  /** The place loop of one division. */
  method AppendPlaced(results: seq<Entry>, g: seq<Entry>) returns (r: seq<Entry>)
    ensures r == results + Placed(g)
  {
    r := results;
    for i := 0 to |g|
      invariant r == results + Placed(g[..i])
    {
      assert Placed(g[..i + 1]) == Placed(g[..i]) + [g[i].(place := i + 1)];
      r := r + [g[i].(place := i + 1)];
    }
    assert g[..|g|] == g;
  }

  /** The loop over the divisions that builds `match_results`. */
  method Regroup(c: seq<Entry>, divs: seq<string>) returns (results: seq<Entry>)
    ensures results == Regrouped(c, divs)
  {
    results := [];
    for i := 0 to |divs|
      invariant results == Regrouped(c, divs[..i])
    {
      assert divs[..i + 1][..i] == divs[..i];
      var g := Collect(c, divs[i]);
      results := AppendPlaced(results, SortDesc(g));
    }
    assert divs[..|divs|] == divs;
  }

  // ---------------------------------------------------------------------------
  // noclassifier

  /** The rescored competitors, in their original order, before the re-ranking. */
  function Scoring(data: Match): Result<seq<Entry>>
  {
    var divs := Divisions(data.overall);
    match Tally(Zeroed(data.overall), data.scores, Unclassified(data.stages))
    case Err(e) => Err(e)
    case Ok(t) =>
      TallyKeepsDivisions(Zeroed(data.overall), data.scores, Unclassified(data.stages));
      DivisionsCover(data.overall, t);
      Ok(Scored(t, divs, Hundos(t, divs)))
  }

  lemma DivisionsCover(overall: seq<Entry>, t: seq<Entry>)
    requires |t| == |overall| && forall k :: 0 <= k < |t| ==> t[k].division == overall[k].division
    ensures forall k :: 0 <= k < |t| ==> t[k].division in Divisions(overall)
  {
    forall k | 0 <= k < |t|
      ensures t[k].division in Divisions(overall)
    {
      assert overall[k].division == t[k].division;
    }
  }

  /** The match `noclassifier` returns: the competitors re-ranked, the classifier stages
      dropped, everything else as loaded. */
  function Rescored(data: Match): Result<Match>
  {
    match Scoring(data)
    case Err(e) => Err(e)
    case Ok(s) =>
      Ok(data.(overall := Regrouped(s, Divisions(data.overall)),
               stages := KeptStages(data.stages, Unclassified(data.stages))))
  }

  /** `noclassifier(file)` after the JSON load. */
  method NoClassifier(data: Match) returns (r: Result<Match>)
    ensures r == Rescored(data)
  {
    var competitors, divisions := ZeroPoints(data.overall);
    var uncl := UnclassifiedStages(data.stages);
    var tallied := TallyScores(competitors, data.scores, uncl);
    if tallied.Err? {
      return Err(tallied.error);
    }
    var t := tallied.value;
    TallyKeepsDivisions(competitors, data.scores, uncl);
    DivisionsCover(data.overall, t);
    var hundos := HundoList(t, divisions);
    var scored := ScorePercents(t, divisions, hundos);
    var results := Regroup(scored, divisions);
    var stages := KeepStages(data.stages, uncl);
    return Ok(data.(overall := results, stages := stages));
  }

  lemma TallyKeepsDivisions(c: seq<Entry>, scores: seq<Score>, uncl: seq<int>)
    requires Tally(c, scores, uncl).Ok?
    ensures forall k :: 0 <= k < |c| ==> Tally(c, scores, uncl).value[k].division == c[k].division
  {
    TallyAt(c, scores, uncl);
  }

  // ---------------------------------------------------------------------------
  // What the rescoring means

  /** The best score of a division depends only on the divisions and points of the list. */
  lemma {:induction false} HundoSamePoints(a: seq<Entry>, b: seq<Entry>, d: string)
    requires |a| == |b|
    requires forall k :: 0 <= k < |a| ==> a[k].division == b[k].division && a[k].matchPoints == b[k].matchPoints
    ensures Hundo(a, d) == Hundo(b, d)
  {
    if a != [] {
      var n := |a| - 1;
      HundoSamePoints(a[..n], b[..n], d);
    }
  }

  /** Each percent is taken against the best score of the competitor's own division. */
  lemma ScoredAgainstOwnDivision(t: seq<Entry>, divs: seq<string>)
    requires forall k :: 0 <= k < |t| ==> t[k].division in divs
    ensures forall k :: 0 <= k < |t| ==>
              Scored(t, divs, Hundos(t, divs))[k] == t[k].(percent := Percent(t[k].matchPoints, Hundo(t, t[k].division)))
  {
  }

  /** After a successful rescoring, each competitor keeps its position in the list and
      everything but its points and percent; its points are the stage points of the
      non-classifier scores routed to it. */
  lemma ScoringPoints(data: Match)
    requires Scoring(data).Ok?
    ensures var s := Scoring(data).value;
            && |s| == |data.overall|
            && forall k :: 0 <= k < |s| ==>
                 s[k] == data.overall[k].(matchPoints := Routed(data.scores, Unclassified(data.stages), |s|, k),
                                          percent := s[k].percent)
  {
    var uncl := Unclassified(data.stages);
    var z := Zeroed(data.overall);
    var t := Tally(z, data.scores, uncl).value;
    var divs := Divisions(data.overall);
    TallyAt(z, data.scores, uncl);
    DivisionsCover(data.overall, t);
    ScoredAgainstOwnDivision(t, divs);
  }

  /** Each percent is the competitor's points over its division's best score, times 100, or 0
      when that best score is 0. */
  lemma ScoringPercents(data: Match)
    requires Scoring(data).Ok?
    ensures var s := Scoring(data).value;
            forall k :: 0 <= k < |s| ==> s[k].percent == Percent(s[k].matchPoints, Hundo(s, s[k].division))
  {
    var uncl := Unclassified(data.stages);
    var z := Zeroed(data.overall);
    var t := Tally(z, data.scores, uncl).value;
    var divs := Divisions(data.overall);
    TallyKeepsDivisions(z, data.scores, uncl);
    DivisionsCover(data.overall, t);
    PercentsOfScored(t, divs);
  }

  lemma PercentsOfScored(t: seq<Entry>, divs: seq<string>)
    requires forall k :: 0 <= k < |t| ==> t[k].division in divs
    ensures var s := Scored(t, divs, Hundos(t, divs));
            forall k :: 0 <= k < |s| ==> s[k].percent == Percent(s[k].matchPoints, Hundo(s, s[k].division))
  {
    var s := Scored(t, divs, Hundos(t, divs));
    ScoredAgainstOwnDivision(t, divs);
    forall k | 0 <= k < |s|
      ensures s[k].percent == Percent(s[k].matchPoints, Hundo(s, s[k].division))
    {
      HundoSamePoints(s, t, s[k].division);
    }
  }

  /** The rescoring raises IndexError exactly when a score on a non-classifier stage names a
      competitor number outside the list. */
  lemma ScoringFails(data: Match)
    ensures Scoring(data).Err? <==>
            exists k :: 0 <= k < |data.scores| && data.scores[k].stage in Unclassified(data.stages)
                        && !Routable(data.scores[k].competitor, |data.overall|)
    ensures Scoring(data).Err? ==> Scoring(data).error == IndexError
  {
    TallyFails(Zeroed(data.overall), data.scores, Unclassified(data.stages));
  }

  /** No percent is above 100, and every division whose best score is positive has a competitor
      at exactly 100. */
  lemma PercentsTopOut(s: seq<Entry>)
    requires forall k :: 0 <= k < |s| ==> s[k].percent == Percent(s[k].matchPoints, Hundo(s, s[k].division))
    ensures forall k :: 0 <= k < |s| ==> s[k].percent <= 100.0
    ensures forall d :: Hundo(s, d) > 0.0 ==> exists k :: 0 <= k < |s| && s[k].division == d && s[k].percent == 100.0
  {
    forall k | 0 <= k < |s|
      ensures s[k].percent <= 100.0
    {
      if Hundo(s, s[k].division) > 0.0 {
        PercentBounds(s[k].matchPoints, Hundo(s, s[k].division));
      }
    }
    forall d | Hundo(s, d) > 0.0
      ensures exists k :: 0 <= k < |s| && s[k].division == d && s[k].percent == 100.0
    {
      var k :| 0 <= k < |s| && s[k].division == d && s[k].matchPoints == Hundo(s, d);
      PercentBounds(s[k].matchPoints, Hundo(s, d));
    }
  }

  lemma {:induction false} InDivisionAppend(a: seq<Entry>, b: seq<Entry>, d: string)
    ensures InDivision(a + b, d) == InDivision(a, d) + InDivision(b, d)
    decreases |b|
  {
    if b == [] {
      assert a + b == a;
    } else {
      var n := |b| - 1;
      InDivisionAppend(a, b[..n], d);
      assert (a + b)[..|a + b| - 1] == a + b[..n];
    }
  }

  lemma {:induction false} InDivisionUniform(g: seq<Entry>, e: string, d: string)
    requires forall k :: 0 <= k < |g| ==> g[k].division == e
    ensures InDivision(g, d) == if e == d then g else []
  {
    if g != [] {
      var n := |g| - 1;
      InDivisionUniform(g[..n], e, d);
      assert g == g[..n] + [g[n]];
    }
  }

  /** In the new overall list, the competitors of one listed division are exactly that
      division's competitors, sorted stably by percent and placed 1, 2, ...; a division that is
      not listed has none. */
  lemma RegroupedDivision(c: seq<Entry>, divs: seq<string>, d: string)
    requires NoDup(divs)
    ensures InDivision(Regrouped(c, divs), d) == if d in divs then Block(c, d) else []
  {
    var blocks := Blocks(c, divs);
    RegroupedConcat(c, divs);
    ConcatDivision(blocks, divs, d);
  }

  /** The blocks of the listed divisions, in order. */
  function Blocks(c: seq<Entry>, divs: seq<string>): (b: seq<seq<Entry>>)
    ensures |b| == |divs|
    ensures forall i, k :: 0 <= i < |divs| && 0 <= k < |b[i]| ==> b[i][k].division == divs[i]
  {
    seq(|divs|, i requires 0 <= i < |divs| => Block(c, divs[i]))
  }

  function Concat(blocks: seq<seq<Entry>>): seq<Entry>
  {
    if blocks == [] then [] else Concat(blocks[..|blocks| - 1]) + blocks[|blocks| - 1]
  }

  lemma {:induction false} RegroupedConcat(c: seq<Entry>, divs: seq<string>)
    ensures Regrouped(c, divs) == Concat(Blocks(c, divs))
  {
    if divs != [] {
      var n := |divs| - 1;
      RegroupedConcat(c, divs[..n]);
      assert Blocks(c, divs)[..n] == Blocks(c, divs[..n]);
    }
  }

  lemma {:induction false} ConcatDivision(blocks: seq<seq<Entry>>, divs: seq<string>, d: string)
    requires |blocks| == |divs| && NoDup(divs)
    requires forall i, k :: 0 <= i < |divs| && 0 <= k < |blocks[i]| ==> blocks[i][k].division == divs[i]
    ensures InDivision(Concat(blocks), d) == if d in divs then blocks[IndexOf(divs, d)] else []
  {
    if divs != [] {
      var n := |divs| - 1;
      var e := divs[n];
      var front := blocks[..n];
      ConcatDivision(front, divs[..n], d);
      InDivisionAppend(Concat(front), blocks[n], d);
      InDivisionUniform(blocks[n], e, d);
      UniqueLast(divs, d);
      if d in divs[..n] {
        IndexOfPrefix(divs, d);
      }
    }
  }

  lemma IndexOfPrefix(s: seq<string>, x: string)
    requires s != [] && x in s[..|s| - 1]
    ensures IndexOf(s, x) == IndexOf(s[..|s| - 1], x)
  {
    var i := IndexOf(s[..|s| - 1], x);
    var j := IndexOf(s, x);
    assert s[i] == x;
  }

  /** In a list without repeats, d is either the last element and not before it, or it is
      listed before the last exactly when it is listed at all. */
  lemma UniqueLast(divs: seq<string>, d: string)
    requires NoDup(divs) && divs != []
    ensures NoDup(divs[..|divs| - 1])
    ensures d == divs[|divs| - 1] ==> d !in divs[..|divs| - 1]
    ensures d != divs[|divs| - 1] ==> (d in divs <==> d in divs[..|divs| - 1])
  {
    LastSplit(divs);
  }

  /** The places of a sorted block run 1, 2, ..., k in non-increasing percent, and nothing but
      the place differs from the sorted entry. */
  lemma PlacedBlock(g: seq<Entry>)
    ensures var r := Placed(SortDesc(g));
            && |r| == |g|
            && (forall i :: 0 <= i < |r| ==> r[i].place == i + 1 && r[i] == SortDesc(g)[i].(place := i + 1))
            && (forall i, j :: 0 <= i < j < |r| ==> r[i].percent >= r[j].percent)
  {
    assert |multiset(SortDesc(g))| == |multiset(g)|;
  }

  /** The competitors whose division is in D, in list order. */
  function InAny(c: seq<Entry>, D: set<string>): seq<Entry>
  {
    if c == [] then []
    else
      var n := |c| - 1;
      InAny(c[..n], D) + (if c[n].division in D then [c[n]] else [])
  }

  lemma {:induction false} SplitOff(c: seq<Entry>, D: set<string>, d: string)
    requires d !in D
    ensures multiset(InAny(c, D + {d})) == multiset(InAny(c, D)) + multiset(InDivision(c, d))
  {
    if c != [] {
      var n := |c| - 1;
      var x := c[n];
      SplitOff(c[..n], D, d);
      var both := InAny(c[..n], D + {d});
      var some := InAny(c[..n], D);
      var mine := InDivision(c[..n], d);
      assert InAny(c, D + {d}) == both + (if x.division in D + {d} then [x] else []);
      assert InAny(c, D) == some + (if x.division in D then [x] else []);
      assert InDivision(c, d) == mine + (if x.division == d then [x] else []);
    }
  }

  lemma {:induction false} InAnyAll(c: seq<Entry>, D: set<string>)
    requires forall k :: 0 <= k < |c| ==> c[k].division in D
    ensures InAny(c, D) == c
  {
    if c != [] {
      var n := |c| - 1;
      InAnyAll(c[..n], D);
      assert c == c[..n] + [c[n]];
    }
  }

  /** The divisions of a list, as a set. */
  function Listed(divs: seq<string>): set<string>
  {
    set x | x in divs
  }

  /** The blocks without their places. */
  function Grouped(c: seq<Entry>, divs: seq<string>): seq<Entry>
  {
    if divs == [] then []
    else
      var n := |divs| - 1;
      Grouped(c, divs[..n]) + SortDesc(InDivision(c, divs[n]))
  }

  lemma {:induction false} GroupedMultiset(c: seq<Entry>, divs: seq<string>)
    requires NoDup(divs)
    ensures multiset(Grouped(c, divs)) == multiset(InAny(c, Listed(divs)))
  {
    if divs == [] {
      assert Listed(divs) == {};
      InAnyNone(c);
    } else {
      var n := |divs| - 1;
      GroupedMultiset(c, divs[..n]);
      assert divs[n] !in divs[..n];
      assert Listed(divs) == Listed(divs[..n]) + {divs[n]};
      SplitOff(c, Listed(divs[..n]), divs[n]);
    }
  }

  lemma {:induction false} InAnyNone(c: seq<Entry>)
    ensures InAny(c, {}) == []
  {
    if c != [] {
      InAnyNone(c[..|c| - 1]);
    }
  }

  lemma {:induction false} RegroupedIsGrouped(c: seq<Entry>, divs: seq<string>)
    ensures |Regrouped(c, divs)| == |Grouped(c, divs)|
    ensures forall k :: 0 <= k < |Regrouped(c, divs)| ==>
              Regrouped(c, divs)[k] == Grouped(c, divs)[k].(place := Regrouped(c, divs)[k].place)
  {
    if divs != [] {
      var n := |divs| - 1;
      RegroupedIsGrouped(c, divs[..n]);
      PlacedBlock(InDivision(c, divs[n]));
    }
  }

  /** Apart from the places, the new overall list is a permutation of the rescored list. */
  lemma RegroupedPermutes(s: seq<Entry>)
    ensures var r := Regrouped(s, Divisions(s));
            var g := Grouped(s, Divisions(s));
            && multiset(g) == multiset(s)
            && |r| == |g|
            && forall k :: 0 <= k < |r| ==> r[k] == g[k].(place := r[k].place)
  {
    var divs := Divisions(s);
    GroupedMultiset(s, divs);
    forall k | 0 <= k < |s|
      ensures s[k].division in Listed(divs)
    {
      assert s[k].division in divs;
    }
    InAnyAll(s, Listed(divs));
    RegroupedIsGrouped(s, divs);
  }
}
