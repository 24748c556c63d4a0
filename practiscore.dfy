/**
  The match-data side of Utilities/practiscore.py that feeds the rating pipeline:
  picking the tagged record lines of a PractiScore text export (`$INFO` header lines, `G`
  stage lines, `I` stage-score lines) and reading their comma-separated fields, the header
  lookup and match level, the USPSA-match test, the fake member numbers, and `mmr_format`,
  which turns a match's overall results into one division's Competitor objects.

  Files are given as their lines; a loaded match JSON is a `Rescore.Match`.
*/
module Practiscore {
  import opened Outcomes
  import opened PyStr
  import opened Rating
  import opened Rescore

  // ---------------------------------------------------------------------------
  // int(s) on ASCII text

  function DigitValue(c: char): nat
    requires IsDigitChar(c)
  {
    c as int - '0' as int
  }

  function DigitChar(d: nat): char
    requires d < 10
  {
    ('0' as int + d) as char
  }

  /** The number a string of decimal digits spells. */
  function DigitsValue(ds: string): nat
    requires forall i :: 0 <= i < |ds| ==> IsDigitChar(ds[i])
  {
    if ds == [] then 0 else DigitsValue(ds[..|ds| - 1]) * 10 + DigitValue(ds[|ds| - 1])
  }

  /** Python's decimal literal: digits, with single underscores only between two digits. */
  predicate DigitGroups(d: string)
  {
    && d != [] && IsDigitChar(d[0]) && IsDigitChar(d[|d| - 1])
    && (forall i :: 0 <= i < |d| ==> IsDigitChar(d[i]) || d[i] == '_')
    && (forall i :: 0 <= i < |d| - 1 ==> !(d[i] == '_' && d[i + 1] == '_'))
  }

  /** Dropping the underscores of digits-and-underscores leaves only digits. */
  lemma DigitsKept(d: string)
    requires forall i :: 0 <= i < |d| ==> IsDigitChar(d[i]) || d[i] == '_'
    ensures forall i :: 0 <= i < |Remove(d, '_')| ==> IsDigitChar(Remove(d, '_')[i])
  {
    var r := Remove(d, '_');
    forall i | 0 <= i < |r|
      ensures IsDigitChar(r[i])
    {
      var c := r[i];
      assert multiset(r)[c] > 0;
      assert multiset(d)[c] > 0;
      var j :| 0 <= j < |d| && d[j] == c;
    }
  }

  /** The unsigned part of an `int()` argument. */
  function Unsigned(d: string): (r: Result<nat>)
    ensures r.Ok? <==> DigitGroups(d)
    ensures r.Err? ==> r.error == ValueError
  {
    if DigitGroups(d) then
      DigitsKept(d);
      Ok(DigitsValue(Remove(d, '_')))
    else Err(ValueError)
  }

  /** `int(s)`: surrounding whitespace ignored, an optional sign, then a decimal literal;
      anything else is a ValueError. */
  function ParseInt(s: string): (r: Result<int>)
    ensures r.Err? ==> r.error == ValueError
  {
    Signed(Strip(s, Whitespace))
  }

  /** An optional sign and a decimal literal. */
  function Signed(t: string): (r: Result<int>)
    ensures r.Err? ==> r.error == ValueError
  {
    if t != [] && (t[0] == '-' || t[0] == '+') then
      var m :- Unsigned(t[1..]);
      var v: int := if t[0] == '-' then -(m as int) else m;
      Ok(v)
    else
      var m :- Unsigned(t);
      Ok(m)
  }

  /** `str(n)` for n >= 0. */
  function NatText(n: nat): (s: string)
    ensures s != [] && forall i :: 0 <= i < |s| ==> IsDigitChar(s[i])
  {
    if n < 10 then [DigitChar(n)] else NatText(n / 10) + [DigitChar(n % 10)]
  }

  /** `str(n)`. */
  function IntText(n: int): string
  {
    if n < 0 then "-" + NatText(-n) else NatText(n)
  }

  lemma {:induction false} NatTextValue(n: nat)
    ensures DigitsValue(NatText(n)) == n
  {
    if n >= 10 {
      NatTextValue(n / 10);
      var s := NatText(n);
      assert s[..|s| - 1] == NatText(n / 10);
    }
  }

  lemma DigitsAsIs(s: string)
    requires forall i :: 0 <= i < |s| ==> IsDigitChar(s[i])
    ensures '_' !in s && Remove(s, '_') == s
    ensures s != [] ==> s[0] !in Whitespace && s[|s| - 1] !in Whitespace
  {
    assert forall i :: 0 <= i < |s| ==> s[i] != '_';
    RemoveAbsent(s, '_');
  }

  /** The digits of n read back as n. */
  lemma UnsignedText(n: nat)
    ensures Unsigned(NatText(n)) == Ok(n)
  {
    var digits := NatText(n);
    DigitsAsIs(digits);
    NatTextValue(n);
    assert DigitGroups(digits);
  }

  lemma SignedText(n: int)
    ensures Signed(IntText(n)) == Ok(n)
  {
    if n < 0 {
      NegativeText(n);
    } else {
      UnsignedText(n);
    }
  }

  lemma NegativeText(n: int)
    requires n < 0
    ensures Signed(IntText(n)) == Ok(n)
  {
    UnsignedText(-n);
    assert IntText(n)[1..] == NatText(-n);
  }

  /** `int(str(n)) == n`. */
  lemma ParseIntText(n: int)
    ensures ParseInt(IntText(n)) == Ok(n)
  {
    var digits := NatText(if n < 0 then -n else n);
    DigitsAsIs(digits);
    var s := IntText(n);
    assert s[|s| - 1] == digits[|digits| - 1];
    StripNothing(s, Whitespace);
    SignedText(n);
  }

  // ---------------------------------------------------------------------------
  // Tagged record lines

  /** `line.split(" ")[0] == tag`. */
  predicate IsRecord(line: string, tag: string)
  {
    Split(line, ' ')[0] == tag
  }

  /** A line is a record with a space-free tag exactly when it is the tag alone or begins
      with the tag and a space. */
  lemma RecordTag(line: string, tag: string)
    requires ' ' !in tag
    ensures IsRecord(line, tag) <==> line == tag || (|tag| < |line| && line[..|tag| + 1] == tag + " ")
  {
    SplitHead(line, ' ');
    var h := Split(line, ' ')[0];
    if line == tag {
      assert line == tag + [];
      SplitHeadOf(tag, [], ' ');
    }
    if |tag| < |line| && line[..|tag| + 1] == tag + " " {
      assert line == tag + line[|tag|..];
      SplitHeadOf(tag, line[|tag|..], ' ');
    }
    if IsRecord(line, tag) && line != tag {
      assert line[..|tag| + 1] == h + [line[|tag|]];
    }
  }

  /** The lines the loop keeps, in order. */
  function Records(lines: seq<string>, keep: string -> bool): seq<string>
  {
    if lines == [] then []
    else
      var front := lines[..|lines| - 1];
      var last := lines[|lines| - 1];
      assert lines == front + [last];
      Records(front, keep) + (if keep(last) then [last] else [])
  }

  /** One more line adds itself when it is kept. */
  lemma RecordsSnoc(xs: seq<string>, x: string, keep: string -> bool)
    ensures Records(xs + [x], keep) == Records(xs, keep) + (if keep(x) then [x] else [])
  {
    assert (xs + [x])[..|xs|] == xs;
  }

  /** Exactly the kept items are selected. */
  lemma {:induction false} RecordsMembers(xs: seq<string>, keep: string -> bool)
    ensures forall x :: x in Records(xs, keep) <==> x in xs && keep(x)
  {
    if xs != [] {
      var front := xs[..|xs| - 1];
      var last := xs[|xs| - 1];
      assert xs == front + [last];
      RecordsMembers(front, keep);
      RecordsSnoc(front, last, keep);
    }
  }

  /** Selecting records commutes with joining files: the order of the lines is kept. */
  lemma {:induction false} RecordsAppend(a: seq<string>, b: seq<string>, keep: string -> bool)
    ensures Records(a + b, keep) == Records(a, keep) + Records(b, keep)
  {
    if b == [] {
      assert a + b == a;
    } else {
      var front := b[..|b| - 1];
      var x := b[|b| - 1];
      assert b == front + [x];
      assert a + b == (a + front) + [x];
      RecordsAppend(a, front, keep);
      RecordsSnoc(a + front, x, keep);
      RecordsSnoc(front, x, keep);
    }
  }

  /** The loops of `json_header`, `json_stages` and `json_scores`: every kept line, in file
      order, made into a row; a line whose row fails stops the loop with its error. */
  function Rows<T>(lines: seq<string>, keep: string -> bool, parse: string -> Result<T>): Result<seq<T>>
  {
    if lines == [] then Ok([])
    else
      var front :- Rows(lines[..|lines| - 1], keep, parse);
      var line := lines[|lines| - 1];
      if keep(line) then
        var x :- parse(line);
        Ok(front + [x])
      else Ok(front)
  }

  /** Kept line k is the first whose row fails. */
  predicate FirstFailing<T>(recs: seq<string>, k: int, parse: string -> Result<T>)
  {
    && 0 <= k < |recs| && parse(recs[k]).Err?
    && forall j :: 0 <= j < k ==> parse(recs[j]).Ok?
  }

  /** The rows of a list of kept lines: the first failure, or every row in order. */
  function Parsed<T>(recs: seq<string>, parse: string -> Result<T>): Result<seq<T>>
  {
    if recs == [] then Ok([])
    else
      var front :- Parsed(recs[..|recs| - 1], parse);
      var x :- parse(recs[|recs| - 1]);
      Ok(front + [x])
  }

  /** Filtering the lines and parsing as the loop goes is parsing the filtered lines. */
  lemma {:induction false} RowsAreParsed<T>(lines: seq<string>, keep: string -> bool, parse: string -> Result<T>)
    ensures Rows(lines, keep, parse) == Parsed(Records(lines, keep), parse)
  {
    if lines != [] {
      var front := lines[..|lines| - 1];
      var line := lines[|lines| - 1];
      RowsAreParsed(front, keep, parse);
      var early := Records(front, keep);
      if keep(line) {
        var recs := early + [line];
        assert Records(lines, keep) == recs;
        assert recs[..|recs| - 1] == early && recs[|recs| - 1] == line;
      } else {
        assert Records(lines, keep) == early + [];
        assert early + [] == early;
      }
    }
  }

  /** A failure among the first kept lines is still the first failure once more are kept. */
  lemma FailingExtends<T>(early: seq<string>, recs: seq<string>, k: int, parse: string -> Result<T>)
    requires |early| <= |recs| && recs[..|early|] == early && FirstFailing(early, k, parse)
    ensures FirstFailing(recs, k, parse) && !parse(recs[k]).Ok? && parse(recs[k]) == parse(early[k])
  {
    assert forall j :: 0 <= j <= k ==> recs[j] == recs[..|early|][j];
  }

  /** The parsed rows: success exactly when every kept line parses, and then one row per line
      in order; a failure carries the error of the first line that does not parse. */
  lemma {:induction false} ParsedMeaning<T>(recs: seq<string>, parse: string -> Result<T>)
    ensures var r := Parsed(recs, parse);
            && (r.Ok? <==> forall k :: 0 <= k < |recs| ==> parse(recs[k]).Ok?)
            && (r.Ok? ==>
                  && |r.value| == |recs|
                  && forall k :: 0 <= k < |recs| ==> r.value[k] == parse(recs[k]).value)
            && (r.Err? ==> exists k :: FirstFailing(recs, k, parse) && parse(recs[k]) == Err(r.error))
  {
    if recs != [] {
      var front := recs[..|recs| - 1];
      ParsedMeaning(front, parse);
      var before := Parsed(front, parse);
      if before.Err? {
        var k :| FirstFailing(front, k, parse) && parse(front[k]) == Err(before.error);
        FailingExtends(front, recs, k, parse);
      } else {
        assert forall k :: 0 <= k < |front| ==> recs[k] == front[k];
        if parse(recs[|recs| - 1]).Err? {
          assert FirstFailing(recs, |recs| - 1, parse);
        }
      }
    }
  }

  /** The loop succeeds exactly when every kept line makes a row, and then its rows are those
      of the kept lines in order; when it fails, it fails with the error of the first kept
      line that makes no row. */
  lemma RowsOfRecords<T>(lines: seq<string>, keep: string -> bool, parse: string -> Result<T>)
    ensures var recs := Records(lines, keep);
            var r := Rows(lines, keep, parse);
            && (r.Ok? <==> forall k :: 0 <= k < |recs| ==> parse(recs[k]).Ok?)
            && (r.Ok? ==>
                  && |r.value| == |recs|
                  && forall k :: 0 <= k < |recs| ==> r.value[k] == parse(recs[k]).value)
            && (r.Err? ==> exists k :: FirstFailing(recs, k, parse) && parse(recs[k]) == Err(r.error))
  {
    RowsAreParsed(lines, keep, parse);
    ParsedMeaning(Records(lines, keep), parse);
  }

  /** Once a prefix of the lines fails, the whole loop fails with the same error. */
  lemma {:induction false} RowsStayFailed<T>(lines: seq<string>, i: int, keep: string -> bool, parse: string -> Result<T>)
    requires 0 <= i <= |lines| && Rows(lines[..i], keep, parse).Err?
    ensures Rows(lines, keep, parse) == Rows(lines[..i], keep, parse)
    decreases |lines|
  {
    if i == |lines| {
      assert lines[..i] == lines;
    } else {
      var front := lines[..|lines| - 1];
      assert front[..i] == lines[..i];
      RowsStayFailed(front, i, keep, parse);
    }
  }

  /** A file of one kept line gives that line's row. */
  lemma RowsOne<T>(line: string, keep: string -> bool, parse: string -> Result<T>)
    requires keep(line) && parse(line).Ok?
    ensures Rows([line], keep, parse) == Ok([parse(line).value])
  {
    assert [line][..0] == [] && [line][0] == line;
    assert [] + [parse(line).value] == [parse(line).value];
  }

  /** The record loop as the source runs it, line by line. */
  method CollectRows<T>(lines: seq<string>, keep: string -> bool, parse: string -> Result<T>)
    returns (r: Result<seq<T>>)
    ensures r == Rows(lines, keep, parse)
  {
    var rows: seq<T> := [];
    for i := 0 to |lines|
      invariant Rows(lines[..i], keep, parse) == Ok(rows)
    {
      var line := lines[i];
      assert lines[..i + 1][..i] == lines[..i];
      if keep(line) {
        var x := parse(line);
        if x.Err? {
          RowsStayFailed(lines, i + 1, keep, parse);
          return Err(x.error);
        }
        rows := rows + [x.value];
      }
    }
    assert lines[..|lines|] == lines;
    r := Ok(rows);
  }

  /** `line.strip(tag + ' ').strip('\n').split(sep)`. */
  function Fields(line: string, tag: string, sep: char): (f: seq<string>)
    ensures |f| >= 1
  {
    Split(Strip(Strip(line, CharSet(tag + " ")), {'\n'}), sep)
  }

  /** An export line: the tag, a space, the fields joined by commas, a newline. */
  function Line(tag: string, fs: seq<string>): string
    requires |fs| >= 1
  {
    tag + " " + Join(fs, ',') + "\n"
  }

  /** Fields an export line can carry: none holds a comma or a newline, and the first does
      not begin with a space or a character of the tag. */
  predicate Writable(tag: string, fs: seq<string>)
  {
    && |fs| >= 1 && fs[0] != [] && fs[0][0] !in tag && fs[0][0] != ' '
    && ' ' !in tag && '\n' !in tag
    && forall i :: 0 <= i < |fs| ==> ',' !in fs[i] && '\n' !in fs[i]
  }

  /** Stripping a set that holds the tag and the space, but neither the body's first
      character nor the newline, from a tagged line leaves its body and newline. */
  lemma StripTagged(tag: string, body: string, cs: set<char>)
    requires forall i :: 0 <= i < |tag| ==> tag[i] in cs
    requires ' ' in cs && body != [] && body[0] !in cs && '\n' !in cs
    ensures Strip(tag + " " + body + "\n", cs) == body + "\n"
  {
    var rest := body + "\n";
    assert tag + " " + body + "\n" == (tag + " ") + rest;
    LStripPrefix(tag + " ", rest, cs);
    StripNothing(rest, cs);
  }

  /** `line.strip(tag + ' ')` on a tagged line leaves its body and newline. */
  lemma StripTag(tag: string, body: string)
    requires body != [] && body[0] !in tag && body[0] != ' ' && '\n' !in tag
    ensures Strip(tag + " " + body + "\n", CharSet(tag + " ")) == body + "\n"
  {
    var cs := CharSet(tag + " ");
    assert forall i :: 0 <= i < |tag| ==> tag[i] in cs;
    assert ' ' in cs;
    assert body[0] !in cs && '\n' !in cs;
    StripTagged(tag, body, cs);
  }

  /** Stripping newlines from a newline-free body with one newline appended gives the body. */
  lemma StripNewline(body: string)
    requires body != [] && '\n' !in body
    ensures Strip(body + "\n", {'\n'}) == body
  {
    var rest := body + "\n";
    assert rest[0] == body[0];
    assert rest[..|body|] == body;
    assert body[|body| - 1] in body;
    StripNothing(body, {'\n'});
  }

  /** Reading an export line back gives its record tag and its fields. */
  lemma LineFields(tag: string, fs: seq<string>)
    requires Writable(tag, fs)
    ensures IsRecord(Line(tag, fs), tag)
    ensures Fields(Line(tag, fs), tag, ',') == fs
  {
    var body := Join(fs, ',');
    var line := Line(tag, fs);
    JoinHead(fs, ',');
    JoinWithout(fs, ',', '\n');
    assert line[..|tag| + 1] == tag + " ";
    RecordTag(line, tag);
    StripTag(tag, body);
    StripNewline(body);
    SplitJoin(fs, ',');
  }

  // ---------------------------------------------------------------------------
  // json_stages and json_scores

  /** The `i`-th field, or the IndexError of `line[i]`. */
  function At(f: seq<string>, i: nat): (r: Result<string>)
    ensures r.Ok? <==> i < |f|
    ensures r.Ok? ==> r.value == f[i]
    ensures r.Err? ==> r.error == IndexError
  {
    if i < |f| then Ok(f[i]) else Err(IndexError)
  }

  function IntAt(f: seq<string>, i: nat): (r: Result<int>)
    ensures r.Ok? <==> i < |f| && ParseInt(f[i]).Ok?
  {
    var s :- At(f, i);
    ParseInt(s)
  }

  /** `True if s.lower() == 'yes' else False`. */
  predicate Yes(s: string)
  {
    Lower(s) == "yes"
  }

  function YesNo(b: bool): string
  {
    if b then "Yes" else "No"
  }

  lemma YesNoRead(b: bool)
    ensures Yes(YesNo(b)) == b
  {
    if b {
      assert Lower("Yes") == "yes" by {
        assert forall i :: 0 <= i < 3 ==> Lower("Yes")[i] == LowerChar("Yes"[i]);
      }
    }
  }

  /** One entry of `json_stages`' list; the float-free fields as values. */
  datatype StageRow = StageRow(number: int, name: string, minRounds: int, maxPoints: int,
                               classifier: bool, classifierNumber: string, scoring: string)

  /** The entry for the fields of one `G` line, evaluated in the order of the source's dict. */
  function StageOf(f: seq<string>): (r: Result<StageRow>)
    ensures r.Ok? <==> |f| >= 8 && ParseInt(f[0]).Ok? && ParseInt(f[2]).Ok? && ParseInt(f[3]).Ok?
    ensures r.Err? && |f| >= 8 ==> r.error == ValueError
    ensures |f| >= 1 && ParseInt(f[0]).Ok? && |f| < 7 ==> r == Err(IndexError)
  {
    var number :- IntAt(f, 0);
    var name :- At(f, 6);
    var minRounds :- IntAt(f, 2);
    var maxPoints :- IntAt(f, 3);
    var scoring :- At(f, 7);
    Ok(StageRow(number, name, minRounds, maxPoints, Yes(f[4]), f[5], scoring))
  }

  /** The columns of a `G` line that carry a stage row. */
  predicate StageColumns(fs: seq<string>, s: StageRow)
  {
    && |fs| >= 8
    && fs[0] == IntText(s.number) && fs[2] == IntText(s.minRounds) && fs[3] == IntText(s.maxPoints)
    && fs[4] == YesNo(s.classifier) && fs[5] == s.classifierNumber && fs[6] == s.name && fs[7] == s.scoring
  }

  /** A stage line of the export. */
  predicate IsStageLine(line: string)
  {
    IsRecord(line, "G")
  }

  /** The entry `json_stages` makes of a stage line. */
  function StageOfLine(line: string): Result<StageRow>
  {
    StageOf(Fields(line, "G", ','))
  }

  /** The fields of a stage written with its columns read back as the stage. */
  lemma StageRead(fs: seq<string>, s: StageRow)
    requires StageColumns(fs, s)
    ensures StageOf(fs) == Ok(s)
  {
    IntAtText(fs, 0, s.number);
    IntAtText(fs, 2, s.minRounds);
    IntAtText(fs, 3, s.maxPoints);
    YesNoRead(s.classifier);
  }

  /** A column written from an integer reads back as that integer. */
  lemma IntAtText(f: seq<string>, i: nat, n: int)
    requires i < |f| && f[i] == IntText(n)
    ensures IntAt(f, i) == Ok(n)
  {
    ParseIntText(n);
  }

  /** A column written from a flag reads back as that flag. */
  lemma YesAt(f: seq<string>, i: nat, b: bool)
    requires i < |f| && f[i] == YesNo(b)
    ensures At(f, i) == Ok(f[i]) && Yes(f[i]) == b
  {
    YesNoRead(b);
  }

  /** `json_stages` reads back the stage of a `G` line written with its columns. */
  lemma StageLineRead(fs: seq<string>, s: StageRow)
    requires Writable("G", fs) && StageColumns(fs, s)
    ensures Rows([Line("G", fs)], IsStageLine, StageOfLine) == Ok([s])
  {
    LineFields("G", fs);
    StageRead(fs, s);
    RowsOne(Line("G", fs), IsStageLine, StageOfLine);
  }

  /** `json_stages` over the lines of a file. */
  method JsonStages(lines: seq<string>) returns (r: Result<seq<StageRow>>)
    ensures r == Rows(lines, IsStageLine, StageOfLine)
  {
    r := CollectRows(lines, IsStageLine, StageOfLine);
  }

  /** One entry of `json_scores`' list; the float fields (time, hit factor, stage points)
      kept as their text. */
  datatype ScoreRow = ScoreRow(stage: int, competitor: int, disqualified: bool, didNotFinish: bool,
                               a: int, b: int, c: int, d: int, misses: int, noShoots: int,
                               procedurals: int, penalties: int, time: string, totalPoints: int,
                               hitFactor: string, stagePoints: string, stagePlace: int)

  /** The integer columns of an `I` line all hold integers. */
  predicate ScoreIntsParse(f: seq<string>)
    requires |f| >= 31
  {
    && ParseInt(f[1]).Ok? && ParseInt(f[2]).Ok? && ParseInt(f[5]).Ok? && ParseInt(f[6]).Ok?
    && ParseInt(f[7]).Ok? && ParseInt(f[8]).Ok? && ParseInt(f[9]).Ok? && ParseInt(f[10]).Ok?
    && ParseInt(f[11]).Ok? && ParseInt(f[19]).Ok? && ParseInt(f[27]).Ok? && ParseInt(f[30]).Ok?
  }

  /** The entry for the fields of one `I` line, evaluated in the order of the source's dict. */
  function ScoreOf(f: seq<string>): (r: Result<ScoreRow>)
    ensures r.Ok? <==> |f| >= 31 && ScoreIntsParse(f)
    ensures r.Err? && |f| >= 31 ==> r.error == ValueError
  {
    var stage :- IntAt(f, 1);
    var competitor :- IntAt(f, 2);
    var dq :- At(f, 3);
    var dnf :- At(f, 4);
    var a :- IntAt(f, 5);
    var b :- IntAt(f, 6);
    var c :- IntAt(f, 7);
    var d :- IntAt(f, 8);
    var m :- IntAt(f, 9);
    var ns :- IntAt(f, 10);
    var procedurals :- IntAt(f, 11);
    var penalties :- IntAt(f, 19);
    var time :- At(f, 25);
    var total :- IntAt(f, 27);
    var hitFactor :- At(f, 28);
    var stagePoints :- At(f, 29);
    var place :- IntAt(f, 30);
    Ok(ScoreRow(stage, competitor, Yes(dq), Yes(dnf), a, b, c, d, m, ns, procedurals, penalties,
                time, total, hitFactor, stagePoints, place))
  }

  /** The columns of an `I` line that carry a score row. */
  predicate ScoreColumns(fs: seq<string>, s: ScoreRow)
  {
    && |fs| >= 31
    && fs[1] == IntText(s.stage) && fs[2] == IntText(s.competitor)
    && fs[3] == YesNo(s.disqualified) && fs[4] == YesNo(s.didNotFinish)
    && fs[5] == IntText(s.a) && fs[6] == IntText(s.b) && fs[7] == IntText(s.c) && fs[8] == IntText(s.d)
    && fs[9] == IntText(s.misses) && fs[10] == IntText(s.noShoots) && fs[11] == IntText(s.procedurals)
    && fs[19] == IntText(s.penalties) && fs[25] == s.time && fs[27] == IntText(s.totalPoints)
    && fs[28] == s.hitFactor && fs[29] == s.stagePoints && fs[30] == IntText(s.stagePlace)
  }

  /** A stage-score line of the export. */
  predicate IsScoreLine(line: string)
  {
    IsRecord(line, "I")
  }

  /** The entry `json_scores` makes of a stage-score line. */
  function ScoreOfLine(line: string): Result<ScoreRow>
  {
    ScoreOf(Fields(line, "I", ','))
  }

  /** `json_scores` reads back the score of an `I` line written with its columns. */
  lemma ScoreLineRead(fs: seq<string>, s: ScoreRow)
    requires Writable("I", fs) && ScoreColumns(fs, s)
    ensures Rows([Line("I", fs)], IsScoreLine, ScoreOfLine) == Ok([s])
  {
    LineFields("I", fs);
    ScoreRead(fs, s);
    RowsOne(Line("I", fs), IsScoreLine, ScoreOfLine);
  }

  /** The fields of a score written with its columns read back as the score. */
  lemma ScoreRead(fs: seq<string>, s: ScoreRow)
    requires ScoreColumns(fs, s)
    ensures ScoreOf(fs) == Ok(s)
  {
    IntAtText(fs, 1, s.stage);
    IntAtText(fs, 2, s.competitor);
    YesAt(fs, 3, s.disqualified);
    YesAt(fs, 4, s.didNotFinish);
    IntAtText(fs, 5, s.a);
    IntAtText(fs, 6, s.b);
    IntAtText(fs, 7, s.c);
    IntAtText(fs, 8, s.d);
    IntAtText(fs, 9, s.misses);
    IntAtText(fs, 10, s.noShoots);
    IntAtText(fs, 11, s.procedurals);
    IntAtText(fs, 19, s.penalties);
    IntAtText(fs, 27, s.totalPoints);
    IntAtText(fs, 30, s.stagePlace);
  }

  /** `json_scores` over the lines of a file. */
  method JsonScores(lines: seq<string>) returns (r: Result<seq<ScoreRow>>)
    ensures r == Rows(lines, IsScoreLine, ScoreOfLine)
  {
    r := CollectRows(lines, IsScoreLine, ScoreOfLine);
  }

  // ---------------------------------------------------------------------------
  // json_header: the $INFO list, get_info and the match level

  /** A header line of the export. */
  predicate IsInfoLine(line: string)
  {
    IsRecord(line, "$INFO")
  }

  /** The pieces `json_header` makes of a header line. */
  function InfoPieces(line: string): Result<seq<string>>
  {
    Ok(Fields(line, "$INFO", ':'))
  }

  /** `json_header`'s info_list over the lines of a file: the pieces of every `$INFO` line
      split at ':'. */
  method InfoList(lines: seq<string>) returns (info: seq<seq<string>>)
    ensures var recs := Records(lines, IsInfoLine);
            |info| == |recs| && forall k :: 0 <= k < |recs| ==> info[k] == Fields(recs[k], "$INFO", ':')
  {
    var r := CollectRows(lines, IsInfoLine, InfoPieces);
    RowsOfRecords(lines, IsInfoLine, InfoPieces);
    info := r.value;
  }

  /** The first entry whose key matches at position k: every earlier entry has a key that
      does not match. */
  predicate FirstKeyAt(key: string, info: seq<seq<string>>, k: int)
  {
    && 0 <= k < |info| && |info[k]| >= 1 && Lower(info[k][0]) == Lower(key)
    && forall j :: 0 <= j < k ==> |info[j]| >= 1 && Lower(info[j][0]) != Lower(key)
  }

  /** `get_info(key, info)`: the second piece of the first entry whose key equals key
      ignoring case; None when no entry matches; an entry without a key or without a second
      piece raises IndexError when it is reached. */
  function GetInfo(key: string, info: seq<seq<string>>): (r: Result<Option<string>>)
    ensures r == Ok(None) <==> forall k :: 0 <= k < |info| ==> |info[k]| >= 1 && Lower(info[k][0]) != Lower(key)
    ensures forall k :: FirstKeyAt(key, info, k) ==>
              r == (if |info[k]| >= 2 then Ok(Some(info[k][1])) else Err(IndexError))
    ensures r.Ok? && r.value.Some? ==> exists k :: FirstKeyAt(key, info, k) && r.value.value == info[k][1]
    ensures r.Err? ==> r.error == IndexError
  {
    if info == [] then Ok(None)
    else if |info[0]| == 0 then Err(IndexError)
    else if Lower(info[0][0]) == Lower(key) then
      if |info[0]| >= 2 then Ok(Some(info[0][1])) else Err(IndexError)
    else
      var r := GetInfo(key, info[1..]);
      assert forall k :: 1 <= k <= |info[1..]| ==> info[1..][k - 1] == info[k];
      assert forall k :: FirstKeyAt(key, info, k) ==> k >= 1 && FirstKeyAt(key, info[1..], k - 1);
      assert forall k :: FirstKeyAt(key, info[1..], k) ==> FirstKeyAt(key, info, k + 1);
      r
  }

  /** Keys that agree ignoring case look up the same value. */
  lemma {:induction false} GetInfoIgnoresCase(key: string, other: string, info: seq<seq<string>>)
    requires Lower(key) == Lower(other)
    ensures GetInfo(key, info) == GetInfo(other, info)
  {
    if info != [] {
      GetInfoIgnoresCase(key, other, info[1..]);
    }
  }

  /** `json_header`'s level: 3 for 'Level III', 2 for 'Level II' (leading whitespace
      ignored), 1 otherwise; a header without a match level raises AttributeError. */
  function MatchLevel(info: seq<seq<string>>): (r: Result<int>)
    ensures var v := GetInfo("match level", info);
            && (r.Ok? <==> v.Ok? && v.value.Some?)
            && (v == Ok(None) ==> r == Err(AttributeError))
            && (v.Err? ==> r == Err(v.error))
            && (r.Ok? ==>
                  && 1 <= r.value <= 3
                  && (r.value == 3 <==> LStripSpace(v.value.value) == "Level III")
                  && (r.value == 2 <==> LStripSpace(v.value.value) == "Level II"))
  {
    var v :- GetInfo("match level", info);
    if v.None? then Err(AttributeError)
    else
      var s := LStripSpace(v.value);
      if s == "Level III" then Ok(3) else if s == "Level II" then Ok(2) else Ok(1)
  }

  // ---------------------------------------------------------------------------
  // isuspsa

  /** The first line that holds sub, if any. */
  function FirstContaining(lines: seq<string>, sub: string): (r: Option<string>)
    ensures r.None? <==> forall k :: 0 <= k < |lines| ==> !Contains(lines[k], sub)
    ensures r.Some? ==> exists k :: 0 <= k < |lines| && lines[k] == r.value && Contains(r.value, sub)
                           && forall j :: 0 <= j < k ==> !Contains(lines[j], sub)
  {
    if lines == [] then None
    else if Contains(lines[0], sub) then Some(lines[0])
    else
      var r := FirstContaining(lines[1..], sub);
      assert forall k :: 1 <= k < |lines| ==> lines[1..][k - 1] == lines[k];
      r
  }

  /** A member number mixes letters and digits, as USPSA numbers do (A12345, TY98765). */
  predicate MemberNumberLike(s: string)
  {
    && IsAlnum(s)
    && (exists i :: 0 <= i < |s| && IsDigitChar(s[i]))
    && (exists i :: 0 <= i < |s| && IsAlphaChar(s[i]))
  }

  /** `isuspsa(file)` on the file's lines: looks at the second comma-separated field of the
      first line holding 'E 1,'; IndexError when no line holds it. */
  function IsUspsa(lines: seq<string>): (r: Result<bool>)
    ensures r.Err? <==> forall k :: 0 <= k < |lines| ==> !Contains(lines[k], "E 1,")
    ensures r.Err? ==> r.error == IndexError
    ensures r.Ok? ==> var f := Split(FirstContaining(lines, "E 1,").value, ',');
                      |f| >= 2 && (r.value <==> MemberNumberLike(f[1]))
  {
    match FirstContaining(lines, "E 1,")
    case None => Err(IndexError)
    case Some(line) =>
      CommaInMarker(line);
      var f := Split(line, ',');
      MixedIff(f[1]);
      Ok(IsAlnum(f[1]) && !IsDigit(f[1]) && !IsAlpha(f[1]))
  }

  /** Alphanumeric and neither all digits nor all letters is the same as a mix of both. */
  lemma MixedIff(s: string)
    ensures IsAlnum(s) && !IsDigit(s) && !IsAlpha(s) <==> MemberNumberLike(s)
  {
    if IsAlnum(s) && !IsDigit(s) && !IsAlpha(s) {
      MixedWord(s);
    }
  }

  /** A line holding 'E 1,' holds a comma, so it has a second field. */
  lemma CommaInMarker(line: string)
    requires Contains(line, "E 1,")
    ensures |Split(line, ',')| >= 2
  {
    var j :| OccursAt(line, "E 1,", j);
    assert line[j + 3] == "E 1,"[3];
    SplitAtSeparator(line, ',');
  }

  // ---------------------------------------------------------------------------
  // Member numbers and isnumberfake

  /** The placeholders entered in place of a member number. */
  const FakeNumbers: seq<string> := ["", "NA", "N/A", "NONE", "666", "69"]

  /** `isnumberfake(member_number)`. */
  predicate IsNumberFake(m: string)
  {
    m in FakeNumbers
  }

  /** `uspsa_num.upper().replace(" ", "").replace("-", "")`. */
  function Normalize(num: string): (m: string)
    ensures ' ' !in m && '-' !in m
    ensures forall i :: 0 <= i < |m| ==> !IsLowerLetter(m[i])
  {
    var u := Upper(num);
    var r := Remove(Remove(u, ' '), '-');
    assert multiset(Remove(u, ' '))[' '] == 0;
    assert multiset(r)[' '] == 0;
    forall i | 0 <= i < |r|
      ensures !IsLowerLetter(r[i])
    {
      Survives(u, ' ', '-', r[i]);
    }
    r
  }

  /** Cleaning works character by character and keeps order: over joined text it is the two
      cleaned parts, joined. */
  lemma NormalizeAppend(a: string, b: string)
    ensures Normalize(a + b) == Normalize(a) + Normalize(b)
  {
    UpperAppend(a, b);
    RemoveAppend(Upper(a), Upper(b), ' ');
    RemoveAppend(Remove(Upper(a), ' '), Remove(Upper(b), ' '), '-');
  }

  /** A space or a hyphen is dropped; any other character is kept, upper-cased. */
  lemma NormalizeOne(x: char)
    ensures Normalize([x]) == if x == ' ' || x == '-' then [] else [UpperChar(x)]
  {
    var u := Upper([x]);
    assert u == [UpperChar(x)];
    RemoveOne(UpperChar(x), ' ');
    if UpperChar(x) == ' ' {
      assert Remove(u, ' ') == [];
    } else {
      RemoveOne(UpperChar(x), '-');
    }
  }

  /** A character of the text after two removals was in the text before. */
  lemma Survives(s: string, c1: char, c2: char, x: char)
    requires x in Remove(Remove(s, c1), c2)
    ensures x in s
  {
    assert multiset(Remove(Remove(s, c1), c2))[x] > 0;
    assert multiset(Remove(s, c1))[x] > 0;
    assert multiset(s)[x] > 0;
  }

  lemma UpperAsIs(s: string)
    requires forall i :: 0 <= i < |s| ==> !IsLowerLetter(s[i])
    ensures Upper(s) == s
  {
  }

  /** Normalising a normalised number changes nothing. */
  lemma NormalizeIdempotent(num: string)
    ensures Normalize(Normalize(num)) == Normalize(num)
  {
    var m := Normalize(num);
    UpperAsIs(m);
    RemoveAbsent(m, ' ');
    RemoveAbsent(m, '-');
  }

  /** The member a number stands for: None for a placeholder. */
  function MemberOf(num: string): (r: Option<string>)
    ensures r.None? <==> IsNumberFake(Normalize(num))
    ensures r.Some? ==> r.value == Normalize(num) && r.value != ""
  {
    var m := Normalize(num);
    if IsNumberFake(m) then None else Some(m)
  }

  /** A placeholder is recognised however it is cased, spaced or hyphenated. */
  lemma SpacedPlaceholder()
    ensures MemberOf("n-a ") == None
  {
    assert Upper("n-a ") == "N-A ";
    assert Remove("N-A ", ' ') == "N-A";
    assert Remove("N-A", '-') == "NA";
  }

  /** A number with hyphens and spaces is kept, upper-cased and without them. */
  lemma SpacedNumber()
    ensures MemberOf("a-1 2") == Some("A12")
  {
    assert Upper("a-1 2") == "A-1 2";
    assert Remove("A-1 2", ' ') == "A-12";
    assert Remove("A-12", '-') == "A12";
  }

  // ---------------------------------------------------------------------------
  // mmr_format

  /** The entry `mmr_format` keeps for the division: the division matches ignoring case and
      the percent is positive. */
  predicate Eligible(e: Entry, division: string)
  {
    Lower(e.division) == Lower(division) && e.percent > 0.0
  }

  /** The eligible entries, in list order. */
  function Eligibles(es: seq<Entry>, division: string): seq<Entry>
  {
    if es == [] then []
    else
      var front := es[..|es| - 1];
      var last := es[|es| - 1];
      assert es == front + [last];
      Eligibles(front, division) + (if Eligible(last, division) then [last] else [])
  }

  /** One more entry adds itself when it is eligible. */
  lemma EligiblesSnoc(xs: seq<Entry>, x: Entry, division: string)
    ensures Eligibles(xs + [x], division) == Eligibles(xs, division) + (if Eligible(x, division) then [x] else [])
  {
    assert (xs + [x])[..|xs|] == xs;
  }

  /** Exactly the kept items are selected. */
  lemma {:induction false} EligiblesMembers(xs: seq<Entry>, division: string)
    ensures forall x :: x in Eligibles(xs, division) <==> x in xs && Eligible(x, division)
  {
    if xs != [] {
      var front := xs[..|xs| - 1];
      var last := xs[|xs| - 1];
      assert xs == front + [last];
      EligiblesMembers(front, division);
      EligiblesSnoc(front, last, division);
    }
  }

  /** Filtering commutes with joining lists: eligible entries keep their order. */
  lemma {:induction false} EligiblesAppend(a: seq<Entry>, b: seq<Entry>, division: string)
    ensures Eligibles(a + b, division) == Eligibles(a, division) + Eligibles(b, division)
  {
    if b == [] {
      assert a + b == a;
    } else {
      var front := b[..|b| - 1];
      var x := b[|b| - 1];
      assert b == front + [x];
      assert a + b == (a + front) + [x];
      EligiblesAppend(a, front, division);
      EligiblesSnoc(a + front, x, division);
      EligiblesSnoc(front, x, division);
    }
  }

  /** The Competitor `mmr_format` fills in for an entry: the match's event, the division
      asked for, the entry's points, percent and place, the match's stage count, and the
      member number, or no member and newcomer status for a placeholder. Fields the source
      leaves at None are zero or empty. */
  function RecordOf(data: Match, e: Entry, division: string, matchType: string): Record
  {
    var member := MemberOf(e.uspsaNum);
    Record(e.first, e.last, member, division, matchType,
           Event(data.id, data.name, data.date, data.unix, data.club, data.clubCode),
           e.matchPoints, e.percent, e.place, |data.stages|, member.None?,
           0.0, 0.0, 0.0, 0.0, 0, [], [])
  }

  function RecordsOf(data: Match, es: seq<Entry>, division: string, matchType: string): (v: seq<Record>)
    ensures |v| == |es| && forall k :: 0 <= k < |es| ==> v[k] == RecordOf(data, es[k], division, matchType)
  {
    seq(|es|, k requires 0 <= k < |es| => RecordOf(data, es[k], division, matchType))
  }

  /** `mmr_format(file, division, match_type, classifiers)` on the loaded match: the
      re-scored match when classifiers is set, then a record for each eligible entry. */
  function MmrRecords(data: Match, division: string, matchType: string, classifiers: bool): Result<seq<Record>>
  {
    var d :- if classifiers then Rescored(data) else Ok(data);
    Ok(RecordsOf(d, Eligibles(d.overall, division), division, matchType))
  }

  /** What `mmr_format` promises: it fails only when the re-scoring fails; each record
      comes, in order, from an eligible entry; every record has the division and match type
      asked for, the match's event and stage count, and a positive percent; a record has no
      member, and is a newcomer, exactly when its number is a placeholder. */
  lemma MmrRecordsMeaning(data: Match, division: string, matchType: string, classifiers: bool)
    ensures var r := MmrRecords(data, division, matchType, classifiers);
            var d := if classifiers then Rescored(data) else Ok(data);
            && (r.Ok? <==> d.Ok?)
            && (r.Err? ==> r.error == d.error)
            && (r.Ok? ==>
                  && |r.value| == |Eligibles(d.value.overall, division)|
                  && forall k :: 0 <= k < |r.value| ==>
                       var rec := r.value[k];
                       var e := Eligibles(d.value.overall, division)[k];
                       && e in d.value.overall && Lower(e.division) == Lower(division)
                       && rec.division == division && rec.matchType == matchType
                       && rec.percent == e.percent > 0.0 && rec.score == e.matchPoints && rec.place == e.place
                       && rec.stageCount == |d.value.stages| && rec.event.matchId == d.value.id
                       && (rec.member.None? <==> IsNumberFake(Normalize(e.uspsaNum)))
                       && rec.noob == rec.member.None?)
  {
    var d := if classifiers then Rescored(data) else Ok(data);
    if d.Ok? {
      EligiblesMembers(d.value.overall, division);
    }
  }

  /** One more entry of the list adds its record when it is eligible. */
  lemma EligiblesStep(d: Match, es: seq<Entry>, i: nat, division: string, matchType: string)
    requires i < |es|
    ensures RecordsOf(d, Eligibles(es[..i + 1], division), division, matchType)
            == RecordsOf(d, Eligibles(es[..i], division), division, matchType)
               + (if Eligible(es[i], division) then [RecordOf(d, es[i], division, matchType)] else [])
  {
    assert es[..i + 1][..i] == es[..i];
  }

  lemma ViewsAppend(cs: seq<Competitor>, c: Competitor)
    ensures Views(cs + [c]) == Views(cs) + [c.Snapshot()]
  {
  }

  /** `Competitor(...)` for the next entry: a fresh object holding the record, which can join
      the list without repeating an object already in it. */
  method NewCompetitor(cs: seq<Competitor>, rec: Record) returns (c: Competitor)
    requires Distinct(cs)
    ensures fresh(c) && c.Snapshot() == rec
    ensures Views(cs + [c]) == Views(cs) + [rec] && Distinct(cs + [c])
  {
    c := new Competitor(rec);
    ViewsAppend(cs, c);
  }

  /** The loop of `mmr_format`: a fresh Competitor object for each eligible entry, in order. */
  method EligibleCompetitors(d: Match, division: string, matchType: string) returns (cs: seq<Competitor>)
    ensures Views(cs) == RecordsOf(d, Eligibles(d.overall, division), division, matchType)
    ensures Distinct(cs) && forall k :: 0 <= k < |cs| ==> fresh(cs[k])
  {
    cs := [];
    for i := 0 to |d.overall|
      invariant Views(cs) == RecordsOf(d, Eligibles(d.overall[..i], division), division, matchType)
      invariant Distinct(cs)
      invariant forall k :: 0 <= k < |cs| ==> fresh(cs[k])
    {
      var e := d.overall[i];
      EligiblesStep(d, d.overall, i, division, matchType);
      if Eligible(e, division) {
        var c := NewCompetitor(cs, RecordOf(d, e, division, matchType));
        cs := cs + [c];
      }
    }
    assert d.overall[..|d.overall|] == d.overall;
  }

  /** `mmr_format` on the loaded match: re-score it when classifiers is set, then build the
      list of Competitor objects. */
  method MmrFormat(data: Match, division: string, matchType: string, classifiers: bool)
    returns (r: Result<seq<Competitor>>)
    ensures var m := MmrRecords(data, division, matchType, classifiers);
            && (r.Ok? <==> m.Ok?)
            && (r.Err? ==> r.error == m.error)
            && (r.Ok? ==>
                  && Views(r.value) == m.value && Distinct(r.value)
                  && forall k :: 0 <= k < |r.value| ==> fresh(r.value[k]))
  {
    var d := data;
    if classifiers {
      var rescored := NoClassifier(data);
      if rescored.Err? {
        return Err(rescored.error);
      }
      d := rescored.value;
    }
    var cs := EligibleCompetitors(d, division, matchType);
    r := Ok(cs);
  }
}
