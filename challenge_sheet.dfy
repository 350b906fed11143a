/**
 * Parsing of the challenge spreadsheet, as `ChallengeDownloadCachingService.kt` does it once
 * the CSV export has been downloaded: `parseDuration`, the hour/minute part of `parseEndTime`,
 * and the row mapping of `downloadChallenges` (drop the header line, split every other line on
 * `,`, turn each into a `Challenge` or stop at the first bad row).
 */
module ChallengeSheet {
  import opened Wrappers
  import opened Text

  /** The hour and minute that `parseEndTime` puts on today's date (the date itself comes from the clock). */
  datatype TimeOfDay = TimeOfDay(hours: int, minutes: int)

  /** One challenge: when it ends, how long it lasts (in whole seconds), and the image to show. */
  datatype Challenge = Challenge(endTime: TimeOfDay, duration: int, imageUrl: string)

  const SecondsPerMinute := 60
  const SecondsPerHour := 3600

  /** `.map { it.toInt() }`: each part read as an integer, `None` where it is not one. */
  function ParseParts(parts: seq<string>): seq<Option<int>> {
    seq(|parts|, i requires 0 <= i < |parts| => ParseInt(parts[i]))
  }

  /** The integers, when every part was one; `None` for the exception thrown at the first that was not. */
  function AllParsed(ns: seq<Option<int>>): (r: Option<seq<int>>)
    ensures r.Some? ==> |r.value| == |ns|
  {
    if ns == [] then Some([])
    else
      match (ns[0], AllParsed(ns[1..]))
      case (Some(n), Some(rest)) => Some([n] + rest)
      case _ => None
  }

  /** Reading an integer followed by `rest` is that integer in front of what `rest` reads as. */
  lemma AllParsedCons(x: int, rest: seq<Option<int>>)
    ensures AllParsed([Some(x)] + rest) == if AllParsed(rest).Some? then Some([x] + AllParsed(rest).value) else None
  {
    assert ([Some(x)] + rest)[1..] == rest;
  }

  /** The mapping succeeds exactly when every part is an integer, and then gives them all, in order. */
  lemma {:induction false} AllParsedMeansEveryPart(ns: seq<Option<int>>)
    ensures AllParsed(ns).Some? <==> forall i :: 0 <= i < |ns| ==> ns[i].Some?
    ensures AllParsed(ns).Some? ==> forall i :: 0 <= i < |ns| ==> ns[i] == Some(AllParsed(ns).value[i])
    decreases |ns|
  {
    if ns != [] {
      AllParsedMeansEveryPart(ns[1..]);
      assert forall i :: 1 <= i < |ns| ==> ns[i] == ns[1..][i - 1];
    }
  }

  /**
   * `parseDuration`: split on `:`, read every part as an integer, take the first three as
   * hours, minutes and seconds and check 0..24, 0..60 and 0..60. `None` stands for the
   * exception thrown when there are fewer than three parts, a part is not an integer, or a
   * check fails.
   */
  function ParseDuration(text: string): (r: Option<int>)
    ensures r.Some? ==> 0 <= r.value <= 24 * SecondsPerHour + 60 * SecondsPerMinute + 60
  {
    match AllParsed(ParseParts(Split(text, ':')))
    case None => None
    case Some(ns) => DurationOf(ns)
  }

  /** The destructuring and range checks of `parseDuration` on the integers read from the parts. */
  function DurationOf(ns: seq<int>): (r: Option<int>)
    ensures r.Some? <==> 3 <= |ns| && 0 <= ns[0] <= 24 && 0 <= ns[1] <= 60 && 0 <= ns[2] <= 60
    ensures r.Some? ==> r.value == ns[0] * SecondsPerHour + ns[1] * SecondsPerMinute + ns[2]
    ensures r.Some? ==> 0 <= r.value <= 24 * SecondsPerHour + 60 * SecondsPerMinute + 60
  {
    if |ns| < 3 then None
    else
      var h, m, s := ns[0], ns[1], ns[2];
      if 0 <= h <= 24 && 0 <= m <= 60 && 0 <= s <= 60
      then Some(h * SecondsPerHour + m * SecondsPerMinute + s)
      else None
  }

  /** `hh:mm:ss` printed from its three numbers. */
  function FormatDuration(h: nat, m: nat, s: nat): string {
    Join([Decimal(h), Decimal(m), Decimal(s)], ':')
  }

  lemma DecimalHasNo(n: nat, c: char)
    requires !IsDigit(c)
    ensures c !in Decimal(n)
  {
  }

  /** Every duration within the checked ranges reads back as its number of seconds. */
  lemma ParseDurationRoundTrip(h: nat, m: nat, s: nat)
    requires h <= 24 && m <= 60 && s <= 60
    ensures ParseDuration(FormatDuration(h, m, s)) == Some(h * SecondsPerHour + m * SecondsPerMinute + s)
  {
    var parts := [Decimal(h), Decimal(m), Decimal(s)];
    DecimalHasNo(h, ':'); DecimalHasNo(m, ':'); DecimalHasNo(s, ':');
    SplitJoin(parts, ':');
    ParseDecimal(h); ParseDecimal(m); ParseDecimal(s);
    var ns := ParseParts(parts);
    assert ns[0] == ParseInt(parts[0]) && ns[1] == ParseInt(parts[1]) && ns[2] == ParseInt(parts[2]);
    AllParsedCons(s as int, []);
    AllParsedCons(m as int, [Some(s as int)]);
    AllParsedCons(h as int, [Some(m as int), Some(s as int)]);
    assert ns == [Some(h as int)] + [Some(m as int), Some(s as int)];
  }

  lemma ParsePartsAppend(a: seq<string>, b: seq<string>)
    ensures ParseParts(a + b) == ParseParts(a) + ParseParts(b)
  {
  }

  /** Reading the parts of `a + b` succeeds exactly when both halves do, with the values in order. */
  lemma {:induction false} AllParsedAppend(a: seq<Option<int>>, b: seq<Option<int>>)
    ensures AllParsed(a + b).Some? <==> AllParsed(a).Some? && AllParsed(b).Some?
    ensures AllParsed(a + b).Some? ==> AllParsed(a + b).value == AllParsed(a).value + AllParsed(b).value
    decreases |a|
  {
    if a == [] {
      assert a + b == b;
    } else {
      var ab := a + b;
      assert ab[0] == a[0] && ab[1..] == a[1..] + b;
      AllParsedAppend(a[1..], b);
      if a[0].Some? && AllParsed(a[1..]).Some? && AllParsed(b).Some? {
        var n, ra, rb := a[0].value, AllParsed(a[1..]).value, AllParsed(b).value;
        assert AllParsed(ab) == Some([n] + (ra + rb));
        assert AllParsed(a) == Some([n] + ra);
        assert [n] + (ra + rb) == [n] + ra + rb;
      }
    }
  }

  lemma NoSeparatorInParts(parts: seq<string>, extra: seq<string>)
    requires forall i :: 0 <= i < |parts| ==> ':' !in parts[i]
    requires forall i :: 0 <= i < |extra| ==> ':' !in extra[i]
    ensures forall i :: 0 <= i < |parts + extra| ==> ':' !in (parts + extra)[i]
  {
    forall i | 0 <= i < |parts + extra| ensures ':' !in (parts + extra)[i] {
      if i >= |parts| { assert (parts + extra)[i] == extra[i - |parts|]; }
    }
  }

  /** Integers after the third are ignored by the destructuring. */
  lemma DurationOfIgnoresExtras(ns: seq<Option<int>>, extra: seq<Option<int>>)
    requires AllParsed(extra).Some?
    ensures AllParsed(ns + extra).Some? <==> AllParsed(ns).Some?
    ensures AllParsed(ns).Some? && 3 <= |ns| ==> DurationOf(AllParsed(ns + extra).value) == DurationOf(AllParsed(ns).value)
  {
    AllParsedAppend(ns, extra);
    if AllParsed(ns).Some? && 3 <= |ns| {
      var vp, all := AllParsed(ns).value, AllParsed(ns + extra).value;
      assert all[0] == vp[0] && all[1] == vp[1] && all[2] == vp[2];
    }
  }

  /** Parts after the third are ignored, as long as each of them is an integer. */
  lemma ParseDurationIgnoresIntegerExtras(parts: seq<string>, extra: seq<string>)
    requires |parts| == 3 && 0 < |extra|
    requires forall i :: 0 <= i < |parts| ==> ':' !in parts[i]
    requires forall i :: 0 <= i < |extra| ==> ':' !in extra[i] && ParseInt(extra[i]).Some?
    ensures ParseDuration(Join(parts + extra, ':')) == ParseDuration(Join(parts, ':'))
  {
    NoSeparatorInParts(parts, extra);
    SplitJoin(parts + extra, ':');
    SplitJoin(parts, ':');
    ParsePartsAppend(parts, extra);
    AllParsedMeansEveryPart(ParseParts(extra));
    DurationOfIgnoresExtras(ParseParts(parts), ParseParts(extra));
  }

  /** A part after the third that is not an integer makes the whole duration fail. */
  lemma ParseDurationRejectsNonIntegerExtra(parts: seq<string>, extra: string)
    requires |parts| == 3
    requires forall i :: 0 <= i < |parts| ==> ':' !in parts[i]
    requires ':' !in extra && ParseInt(extra).None?
    ensures ParseDuration(Join(parts + [extra], ':')) == None
  {
    var all := parts + [extra];
    assert forall i :: 0 <= i < |all| ==> ':' !in all[i] by {
      forall i | 0 <= i < |all| ensures ':' !in all[i] {
        if i < |parts| { assert all[i] == parts[i]; }
      }
    }
    SplitJoin(all, ':');
    ParsePartsAppend(parts, [extra]);
    AllParsedAppend(ParseParts(parts), ParseParts([extra]));
  }

  /** Fewer than three parts never make a duration. */
  lemma ParseDurationNeedsThreeParts(parts: seq<string>)
    requires 0 < |parts| < 3
    requires forall i :: 0 <= i < |parts| ==> ':' !in parts[i]
    ensures ParseDuration(Join(parts, ':')) == None
  {
    SplitJoin(parts, ':');
  }

  /**
   * The two numbers `parseEndTime` reads: hours from the text before the first `:` and
   * minutes from the text after it (each is the whole text when there is no `:`), with the
   * source's own checks `hours <= 24` and `minutes <= 60`, hours first.
   */
  function EndTimeFields(text: string): (r: Option<(int, int)>)
    ensures r.Some? ==> r.value.0 <= 24 && r.value.1 <= 60
  {
    var h := ParseInt(SubstringBefore(text, ':'));
    if h.None? || h.value > 24 then None
    else
      var m := ParseInt(SubstringAfter(text, ':'));
      if m.None? || m.value > 60 then None
      else Some((h.value, m.value))
  }

  /**
   * `parseEndTime` without the clock: the checked fields, then the `LocalDateTime(hour, minute)`
   * that `withHoursAndMinutes` builds, which accepts only hour 0..23 and minute 0..59.
   */
  function ParseEndTime(text: string): (r: Option<TimeOfDay>)
    ensures r.Some? ==> 0 <= r.value.hours < 24 && 0 <= r.value.minutes < 60
  {
    match EndTimeFields(text)
    case None => None
    case Some((h, m)) => if 0 <= h < 24 && 0 <= m < 60 then Some(TimeOfDay(h, m)) else None
  }

  /** `hh:mm` printed from its two numbers. */
  function FormatEndTime(h: nat, m: nat): string {
    Decimal(h) + [':'] + Decimal(m)
  }

  /** Every valid time of day reads back as itself. */
  lemma ParseEndTimeRoundTrip(h: nat, m: nat)
    requires h < 24 && m < 60
    ensures ParseEndTime(FormatEndTime(h, m)) == Some(TimeOfDay(h, m))
  {
    DecimalHasNo(h, ':');
    FirstDelimiterOf(Decimal(h), ':', Decimal(m));
    ParseDecimal(h); ParseDecimal(m);
  }

  /** Without a `:` the same number is read as both the hour and the minute. */
  lemma ParseEndTimeWithoutColon(n: nat)
    requires n < 24
    ensures ParseEndTime(Decimal(n)) == Some(TimeOfDay(n, n))
  {
    DecimalHasNo(n, ':');
    ParseDecimal(n);
  }

  /** A seconds part is not skipped: `hh:mm:ss` is rejected, because `mm:ss` is not an integer. */
  lemma ParseEndTimeRejectsSeconds(h: nat, m: nat, s: nat)
    requires h <= 24
    ensures ParseEndTime(Decimal(h) + [':'] + (Decimal(m) + [':'] + Decimal(s))) == None
  {
    DecimalHasNo(h, ':');
    ParseDecimal(h);
    var after := Decimal(m) + [':'] + Decimal(s);
    FirstDelimiterOf(Decimal(h), ':', after);
    assert IsDigit(after[0]) && !IsDigit(after[|Decimal(m)|]);
    assert ParseInt(after) == None;
  }

  /** Hour 24 passes the source's own check but not the `LocalDateTime` that is built from it. */
  lemma HourTwentyFourPassesCheckOnly(m: nat)
    requires m < 60
    ensures EndTimeFields(FormatEndTime(24, m)) == Some((24, m))
    ensures ParseEndTime(FormatEndTime(24, m)) == None
  {
    DecimalHasNo(24, ':');
    FirstDelimiterOf(Decimal(24), ':', Decimal(m));
    ParseDecimal(24); ParseDecimal(m);
  }

  /** What became of one data row. */
  datatype RowOutcome =
    | RowParsed(challenge: Challenge)
    | RowRejected(message: string)   // reported through `onError`, the whole result is `null`
    | RowThrew                       // the row has fewer than three fields: the destructuring throws

  /** The message for a bad end time; `row` is the 1-based line number in the sheet. */
  function EndTimeError(row: nat, endTime: string): string {
    "Error for sheet at end time of row " + Decimal(row) + ": Expect hh:mm (seconds are not considered). Got " + endTime
  }

  /**
   * The message for a bad duration on sheet row `row`, ending with the field `got`: line 168
   * passes the end-time field, where the duration field was evidently intended.
   */
  function DurationError(row: nat, got: string): (msg: string)
    ensures |got| <= |msg| && msg[|msg| - |got|..] == got
  {
    "Error for sheet at duration of row " + Decimal(row) + ": Expect hh:mm:ss. Got " + got
  }

  /**
   * The body of `mapIndexed { index, (endTime, duration, imageUrl) -> ... }` for the data row
   * at 0-based `index`: end time first, then duration; errors name sheet row `index + 2`, and
   * a bad duration is reported with the end-time field, as the source builds that message.
   */
  function ParseRow(fields: seq<string>, index: nat): (r: RowOutcome)
    ensures r.RowThrew? <==> |fields| < 3
    ensures r.RowParsed? <==> 3 <= |fields| && ParseEndTime(fields[0]).Some? && ParseDuration(fields[1]).Some?
    ensures r.RowParsed? ==> r.challenge == Challenge(ParseEndTime(fields[0]).value, ParseDuration(fields[1]).value, fields[2])
    ensures r.RowRejected? ==> r.message == (if ParseEndTime(fields[0]).None? then EndTimeError(index + 2, fields[0])
                                             else DurationError(index + 2, fields[0]))
  {
    if |fields| < 3 then RowThrew
    else
      match ParseEndTime(fields[0])
      case None => RowRejected(EndTimeError(index + 2, fields[0]))
      case Some(endTime) =>
        match ParseDuration(fields[1])
        case None => RowRejected(DurationError(index + 2, fields[0]))
        case Some(duration) => RowParsed(Challenge(endTime, duration, fields[2]))
  }

  /** The row mapping as evidently intended: a bad duration is reported with the duration field. */
  function IntendedParseRow(fields: seq<string>, index: nat): (r: RowOutcome)
    ensures r.RowRejected? ==> 3 <= |fields|
    ensures r.RowRejected? && ParseEndTime(fields[0]).Some? ==> |fields[1]| <= |r.message| && r.message[|r.message| - |fields[1]|..] == fields[1]
  {
    match ParseRow(fields, index)
    case RowRejected(_) =>
      if ParseEndTime(fields[0]).Some? then RowRejected(DurationError(index + 2, fields[1])) else ParseRow(fields, index)
    case other => other
  }

  /**
   * The intended row mapping differs from the one as written only in the message of a bad
   * duration: every row that parses, throws or has a bad end time gets the same outcome.
   */
  lemma IntendedParseRowAgrees(fields: seq<string>, index: nat)
    ensures !(3 <= |fields| && ParseEndTime(fields[0]).Some? && ParseDuration(fields[1]).None?) ==>
            IntendedParseRow(fields, index) == ParseRow(fields, index)
    ensures 3 <= |fields| && ParseEndTime(fields[0]).Some? && ParseDuration(fields[1]).None? ==>
            IntendedParseRow(fields, index) == RowRejected(DurationError(index + 2, fields[1]))
  {
  }

  /**
   * As written, a row whose end time is good and whose duration is bad is reported with its
   * end-time field, so its message differs from the intended one whenever the two fields differ.
   */
  lemma DurationMessageQuotesEndTime(fields: seq<string>, index: nat)
    requires 3 <= |fields| && ParseEndTime(fields[0]).Some? && ParseDuration(fields[1]).None?
    ensures ParseRow(fields, index) == RowRejected(DurationError(index + 2, fields[0]))
    ensures fields[0] != fields[1] ==> ParseRow(fields, index) != IntendedParseRow(fields, index)
  {
  }

  /** The row `9:5,1:30,u` has a good end time and a bad duration; as written it is reported as "Got 9:5". */
  lemma DurationMessageExample()
    ensures ParseRow([FormatEndTime(9, 5), "1:30", "u"], 0) == RowRejected(DurationError(2, FormatEndTime(9, 5)))
    ensures ParseRow([FormatEndTime(9, 5), "1:30", "u"], 0) != IntendedParseRow([FormatEndTime(9, 5), "1:30", "u"], 0)
  {
    assert Split("1:30", ':') == ["1", "30"] by {
      assert "1:30" == "1" + [':'] + "30";
      SplitAfterPart("1", ':', "30");
      SplitWithoutSeparator("30", ':');
    }
    ParseEndTimeRoundTrip(9, 5);
    assert FormatEndTime(9, 5)[0] == '9';
    DurationMessageQuotesEndTime([FormatEndTime(9, 5), "1:30", "u"], 0);
  }

  /** What became of the whole sheet. */
  datatype SheetOutcome =
    | Parsed(challenges: seq<Challenge>)
    | Reported(message: string)   // `onError(message)` was called once, the result is `null`
    | Threw                       // an exception escapes `downloadChallenges`

  function FailureOf(r: RowOutcome): SheetOutcome {
    match r
    case RowParsed(_) => Parsed([])
    case RowRejected(msg) => Reported(msg)
    case RowThrew => Threw
  }

  /**
   * The outcomes of the data rows from position `from` on, taken in order as `mapIndexed`
   * does: all of them as challenges, or the outcome of the first row that is not a challenge.
   */
  function CollectRows(outcomes: seq<RowOutcome>, from: nat): (r: SheetOutcome)
    requires from <= |outcomes|
    ensures r.Parsed? <==> forall i :: from <= i < |outcomes| ==> outcomes[i].RowParsed?
    ensures r.Parsed? ==> |r.challenges| == |outcomes| - from
    ensures r.Parsed? ==> forall i :: from <= i < |outcomes| ==> outcomes[i] == RowParsed(r.challenges[i - from])
    decreases |outcomes| - from
  {
    if from == |outcomes| then Parsed([])
    else
      match outcomes[from]
      case RowParsed(c) =>
        var rest := CollectRows(outcomes, from + 1);
        if rest.Parsed? then Parsed([c] + rest.challenges) else rest
      case failed => FailureOf(failed)
  }

  /** When not every row is a challenge, the outcome is that of the first row that is not one. */
  lemma {:induction false} CollectRowsFirstFailure(outcomes: seq<RowOutcome>, from: nat) returns (i: nat)
    requires from <= |outcomes| && !CollectRows(outcomes, from).Parsed?
    ensures from <= i < |outcomes| && !outcomes[i].RowParsed?
    ensures CollectRows(outcomes, from) == FailureOf(outcomes[i])
    ensures forall j :: from <= j < i ==> outcomes[j].RowParsed?
    decreases |outcomes| - from
  {
    if outcomes[from].RowParsed? {
      i := CollectRowsFirstFailure(outcomes, from + 1);
    } else {
      i := from;
    }
  }

  /** `.map { it.split(',') }` */
  function SplitFields(lines: seq<string>): seq<seq<string>> {
    seq(|lines|, i requires 0 <= i < |lines| => Split(lines[i], ','))
  }

  /** The row outcome of every data row, numbered from 0. */
  function RowOutcomes(rows: seq<seq<string>>): seq<RowOutcome> {
    seq(|rows|, i requires 0 <= i < |rows| => ParseRow(rows[i], i))
  }

  /** The row mapping of `downloadChallenges` on the downloaded CSV text. */
  function ParseSheet(body: string): SheetOutcome {
    CollectRows(RowOutcomes(SplitFields(Lines(body)[1..])), 0)
  }

  /** A data row as the sheet's author writes it. */
  datatype SheetRow = SheetRow(endHours: nat, endMinutes: nat, hours: nat, minutes: nat, seconds: nat, imageUrl: string)

  predicate ValidRow(r: SheetRow) {
    && r.endHours < 24 && r.endMinutes < 60
    && r.hours <= 24 && r.minutes <= 60 && r.seconds <= 60
    && ',' !in r.imageUrl && '\n' !in r.imageUrl && '\r' !in r.imageUrl
  }

  function FormatRow(r: SheetRow): string {
    Join([FormatEndTime(r.endHours, r.endMinutes), FormatDuration(r.hours, r.minutes, r.seconds), r.imageUrl], ',')
  }

  function ChallengeOf(r: SheetRow): Challenge {
    Challenge(TimeOfDay(r.endHours, r.endMinutes), r.hours * SecondsPerHour + r.minutes * SecondsPerMinute + r.seconds, r.imageUrl)
  }

  /** The CSV export: a header line, then one line per row. */
  function FormatSheet(header: string, rows: seq<SheetRow>): string {
    Join([header] + seq(|rows|, i requires 0 <= i < |rows| => FormatRow(rows[i])), '\n')
  }

  lemma FormatRowHasNo(r: SheetRow, c: char)
    requires ValidRow(r) && c in {',', '\n', '\r'}
    ensures c !in FormatEndTime(r.endHours, r.endMinutes)
    ensures c !in FormatDuration(r.hours, r.minutes, r.seconds)
  {
    DecimalHasNo(r.endHours, c); DecimalHasNo(r.endMinutes, c);
    DecimalHasNo(r.hours, c); DecimalHasNo(r.minutes, c); DecimalHasNo(r.seconds, c);
    JoinHasNo([Decimal(r.hours), Decimal(r.minutes), Decimal(r.seconds)], ':', c);
  }

  lemma ParseFormattedRow(r: SheetRow, index: nat)
    requires ValidRow(r)
    ensures ParseRow(Split(FormatRow(r), ','), index) == RowParsed(ChallengeOf(r))
  {
    var fields := [FormatEndTime(r.endHours, r.endMinutes), FormatDuration(r.hours, r.minutes, r.seconds), r.imageUrl];
    FormatRowHasNo(r, ',');
    SplitJoin(fields, ',');
    ParseEndTimeRoundTrip(r.endHours, r.endMinutes);
    ParseDurationRoundTrip(r.hours, r.minutes, r.seconds);
  }

  /**
   * Whatever the header line says, a sheet written from valid rows reads back as one challenge
   * per row, in order, with every image URL kept verbatim.
   */
  lemma SheetRoundTrip(header: string, rows: seq<SheetRow>)
    requires '\n' !in header && '\r' !in header
    requires forall i :: 0 <= i < |rows| ==> ValidRow(rows[i])
    ensures ParseSheet(FormatSheet(header, rows)) == Parsed(seq(|rows|, i requires 0 <= i < |rows| => ChallengeOf(rows[i])))
  {
    var lines := [header] + seq(|rows|, i requires 0 <= i < |rows| => FormatRow(rows[i]));
    forall i | 0 <= i < |lines| ensures '\n' !in lines[i] && '\r' !in lines[i] {
      if i > 0 {
        var r := rows[i - 1];
        FormatRowHasNo(r, '\n'); FormatRowHasNo(r, '\r');
        JoinHasNo([FormatEndTime(r.endHours, r.endMinutes), FormatDuration(r.hours, r.minutes, r.seconds), r.imageUrl], ',', '\n');
        JoinHasNo([FormatEndTime(r.endHours, r.endMinutes), FormatDuration(r.hours, r.minutes, r.seconds), r.imageUrl], ',', '\r');
      }
    }
    JoinedLines(lines);
    var outcomes := RowOutcomes(SplitFields(lines[1..]));
    forall i | 0 <= i < |outcomes| ensures outcomes[i] == RowParsed(ChallengeOf(rows[i])) {
      assert lines[1..][i] == FormatRow(rows[i]);
      ParseFormattedRow(rows[i], i);
    }
    var result := CollectRows(outcomes, 0);
    assert result.Parsed?;
    assert result.challenges == seq(|rows|, i requires 0 <= i < |rows| => ChallengeOf(rows[i]));
  }

  /**
   * A reported error comes from the first data line `i` (after the header) that is not a
   * challenge, and names it as sheet row `i + 2`, counting the header as row 1; every data line
   * before it is a challenge.
   */
  lemma ReportedErrorNamesItsRow(body: string) returns (i: nat)
    requires ParseSheet(body).Reported?
    ensures i < |Lines(body)[1..]| && 3 <= |Split(Lines(body)[1..][i], ',')|
    ensures forall j :: 0 <= j < i ==> ParseRow(Split(Lines(body)[1..][j], ','), j).RowParsed?
    ensures var fields := Split(Lines(body)[1..][i], ',');
            ParseSheet(body).message == if ParseEndTime(fields[0]).None? then EndTimeError(i + 2, fields[0])
                                        else DurationError(i + 2, fields[0])
  {
    var lines := Lines(body)[1..];
    var outcomes := RowOutcomes(SplitFields(lines));
    i := CollectRowsFirstFailure(outcomes, 0);
    assert outcomes[i] == ParseRow(Split(lines[i], ','), i);
    forall j | 0 <= j < i ensures ParseRow(Split(lines[j], ','), j).RowParsed? {
      assert outcomes[j] == ParseRow(Split(lines[j], ','), j);
    }
  }

  /** The first row that is not a challenge decides the outcome, whatever the rows after it hold. */
  lemma FirstBadRowDecides(outcomes: seq<RowOutcome>, later: seq<RowOutcome>)
    requires !CollectRows(outcomes, 0).Parsed?
    ensures CollectRows(outcomes + later, 0) == CollectRows(outcomes, 0)
  {
    var i := CollectRowsFirstFailure(outcomes, 0);
    PrefixDecides(outcomes + later, outcomes, i, 0);
  }

  lemma {:induction false} PrefixDecides(all: seq<RowOutcome>, outcomes: seq<RowOutcome>, i: nat, from: nat)
    requires i < |outcomes| <= |all| && outcomes == all[..|outcomes|] && from <= i
    requires !outcomes[i].RowParsed?
    requires forall j :: from <= j < i ==> outcomes[j].RowParsed?
    ensures CollectRows(all, from) == CollectRows(outcomes, from) == FailureOf(outcomes[i])
    decreases i - from
  {
    assert all[from] == outcomes[from];
    if from < i {
      PrefixDecides(all, outcomes, i, from + 1);
    }
  }
}
