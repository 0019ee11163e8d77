/** Reading games: the play-by-play scanner that turns the rows of a game's
    play-by-play page into plays, the schedule scanner that turns a date's
    schedule table into games, the season-wide game list, and the train/test
    split of a season. Pages are given as their already-extracted content. */
module GameData {
  import opened Wrappers
  import opened Text
  import opened Calendar
  import opened SharedTypes

  // ===========================================================================
  // Play-by-play

  datatype PlayType = EndOfPeriod | Goal | FaceOff | Shot

  /** A point in a game: the period and the clock text read from the page. */
  datatype HockeyTime = HockeyTime(period: int, clock: string)

  /** One play. `team` is the team that scored, shot or won the face-off;
      end-of-period plays have none. */
  datatype Play = Play(game: Game, time: HockeyTime, kind: PlayType, team: Option<Team>)

  datatype GameData = GameData(game: Game, pbp: seq<Play>)

  /** One `<li>` of a play-by-play list: the texts of its `<span>`s. A page is
      the rows of all its play-by-play lists, in document order. */
  type Row = seq<string>

  /** The row that closes a period (or the game): its last span is "End of ". */
  predicate IsEndMarker(row: Row) {
    |row| > 0 && row[|row| - 1] == "End of "
  }

  /** The kind of play a row's description names, in this precedence: a literal
      "GOAL" (case-sensitive), then "faceoff", then "shot" (both case-insensitive). */
  function Classify(description: string): (r: Option<PlayType>)
    ensures r == Some(Goal) <==> Contains(description, "GOAL")
    ensures r == Some(FaceOff) <==>
      !Contains(description, "GOAL") && Contains(Lower(description), "faceoff")
    ensures r == Some(Shot) <==>
      !Contains(description, "GOAL") && !Contains(Lower(description), "faceoff")
      && Contains(Lower(description), "shot")
    ensures r != Some(EndOfPeriod)
  {
    if Find(description, "GOAL") != -1 then Some(Goal)
    else if Find(Lower(description), "faceoff") != -1 then Some(FaceOff)
    else if Find(Lower(description), "shot") != -1 then Some(Shot)
    else None
  }

  /** "GOAL" wins over "shot" when both occur. */
  lemma GoalBeatsShot()
    ensures Classify("GOAL scored on shot") == Some(Goal)
  {
    assert OccursAt("GOAL scored on shot", "GOAL", 0);
  }

  /** The scanner's state: the period counter (0, then -1, -2, ... as end
      markers are met), whether the first end marker has been seen, and the
      plays collected so far in page order. */
  datatype ScanState = ScanState(period: int, started: bool, plays: seq<Play>)

  const InitialScan := ScanState(0, false, [])

  /** One row of the scan: an end marker moves the counter down, starts the scan
      and adds an end-of-period play at "20:00"; then, once started, a row of
      exactly five spans whose description (span 4) classifies adds a play with
      the team of span 2 and the clock of span 3. */
  function ScanRow(game: Game, st: ScanState, row: Row): ScanState {
    var marker := IsEndMarker(row);
    var period := if marker then st.period - 1 else st.period;
    var started := st.started || marker;
    var endOfPeriod := if marker then [Play(game, HockeyTime(period, "20:00"), EndOfPeriod, None)] else [];
    var play :=
      if !started || |row| != 5 then []
      else match Classify(row[4])
        case None => []
        case Some(kind) => [Play(game, HockeyTime(period, row[3]), kind, Some(row[2]))];
    ScanState(period, started, st.plays + endOfPeriod + play)
  }

  function ScanFrom(game: Game, st: ScanState, rows: seq<Row>): ScanState
    decreases |rows|
  {
    if rows == [] then st
    else ScanRow(game, ScanFrom(game, st, rows[..|rows| - 1]), rows[|rows| - 1])
  }

  /** The state after scanning every row of a page. */
  function Scan(game: Game, rows: seq<Row>): ScanState {
    ScanFrom(game, InitialScan, rows)
  }

  function Shifted(p: Play, delta: int): Play {
    p.(time := p.time.(period := p.time.period + delta))
  }

  /** `plays` in reverse order, every period moved by `delta`. */
  function ReverseShifted(plays: seq<Play>, delta: int): seq<Play> {
    if plays == [] then [] else ReverseShifted(plays[1..], delta) + [Shifted(plays[0], delta)]
  }

  /** The plays of a page: the scanned plays, oldest first, with periods
      renumbered from 1. */
  function ParsePlays(game: Game, rows: seq<Row>): seq<Play> {
    var st := Scan(game, rows);
    ReverseShifted(st.plays, 1 - st.period)
  }

  /** `_load_game_data_online`, given the page rows: scans the rows, then
      returns the plays reversed with every period shifted by `1 - period`. */
  method LoadGameDataOnline(game: Game, rows: seq<Row>) returns (data: GameData)
    ensures data.game == game
    ensures data.pbp == ParsePlays(game, rows)
    ensures var st := Scan(game, rows);
      |data.pbp| == |st.plays|
      && forall k :: 0 <= k < |data.pbp| ==> data.pbp[k] == Shifted(st.plays[|st.plays| - 1 - k], 1 - st.period)
  {
    var started := false;
    var resultPbp: seq<Play> := [];
    var period := 0;
    for i := 0 to |rows|
      invariant ScanState(period, started, resultPbp) == Scan(game, rows[..i])
    {
      var row := rows[i];
      assert rows[..i + 1][..i] == rows[..i];
      if IsEndMarker(row) {
        period := period - 1;
        started := true;
        resultPbp := resultPbp + [Play(game, HockeyTime(period, "20:00"), EndOfPeriod, None)];
      }
      if !started || |row| != 5 {
        continue;
      }
      var hockeyTime := HockeyTime(period, row[3]);
      var thisPlayType := Classify(row[4]);
      if thisPlayType.Some? {
        resultPbp := resultPbp + [Play(game, hockeyTime, thisPlayType.value, Some(row[2]))];
      }
    }
    assert rows[..|rows|] == rows;
    var pbp: seq<Play> := [];
    var j := |resultPbp|;
    while j > 0
      invariant 0 <= j <= |resultPbp|
      invariant pbp == ReverseShifted(resultPbp[j..], 1 - period)
    {
      j := j - 1;
      assert resultPbp[j..][1..] == resultPbp[j + 1..];
      pbp := pbp + [Shifted(resultPbp[j], 1 - period)];
    }
    assert resultPbp[0..] == resultPbp;
    ReverseShiftedAt(resultPbp, 1 - period);
    data := GameData(game, pbp);
  }

  /** Reversal with a shift keeps every play, at the mirrored index. */
  lemma {:induction false} ReverseShiftedAt(plays: seq<Play>, delta: int)
    ensures |ReverseShifted(plays, delta)| == |plays|
    ensures forall k :: 0 <= k < |plays| ==>
      ReverseShifted(plays, delta)[k] == Shifted(plays[|plays| - 1 - k], delta)
  {
    if plays != [] {
      ReverseShiftedAt(plays[1..], delta);
    }
  }

  lemma {:induction false} ScanFromAppend(game: Game, st: ScanState, a: seq<Row>, b: seq<Row>)
    ensures ScanFrom(game, st, a + b) == ScanFrom(game, ScanFrom(game, st, a), b)
    decreases |b|
  {
    if b == [] {
      assert a + b == a;
    } else {
      assert (a + b)[..|a + b| - 1] == a + b[..|b| - 1];
      ScanFromAppend(game, st, a, b[..|b| - 1]);
    }
  }

  /** The number of end-of-period rows on a page. */
  function CountMarkers(rows: seq<Row>): nat {
    if rows == [] then 0
    else CountMarkers(rows[..|rows| - 1]) + (if IsEndMarker(rows[|rows| - 1]) then 1 else 0)
  }

  /** After the scan, the counter is minus the number of end markers, and the
      scan has started exactly when there was one. */
  lemma {:induction false} ScanCounter(game: Game, rows: seq<Row>)
    ensures Scan(game, rows).period == -(CountMarkers(rows) as int)
    ensures Scan(game, rows).started <==> CountMarkers(rows) > 0
  {
    if rows != [] {
      ScanCounter(game, rows[..|rows| - 1]);
    }
  }

  /** A page without end markers leaves the scan in its initial state. */
  lemma {:induction false} ScanWithoutMarkers(game: Game, rows: seq<Row>)
    requires forall i :: 0 <= i < |rows| ==> !IsEndMarker(rows[i])
    ensures Scan(game, rows) == InitialScan
  {
    if rows != [] {
      var init := rows[..|rows| - 1];
      assert forall i :: 0 <= i < |init| ==> init[i] == rows[i];
      ScanWithoutMarkers(game, init);
    }
  }

  /** A page with no end-of-period row yields no plays at all. */
  lemma ParseWithoutMarkers(game: Game, rows: seq<Row>)
    requires forall i :: 0 <= i < |rows| ==> !IsEndMarker(rows[i])
    ensures ParsePlays(game, rows) == []
  {
    ScanWithoutMarkers(game, rows);
  }

  /** Rows before the first end-of-period row contribute nothing: the page
      parses as if they were absent. */
  lemma ParseIgnoresPreamble(game: Game, preamble: seq<Row>, rows: seq<Row>)
    requires forall i :: 0 <= i < |preamble| ==> !IsEndMarker(preamble[i])
    ensures ParsePlays(game, preamble + rows) == ParsePlays(game, rows)
  {
    ScanWithoutMarkers(game, preamble);
    ScanFromAppend(game, InitialScan, preamble, rows);
  }

  /** In page order, every scanned play belongs to the game and lies in a period
      between -N and -1 (N the number of end markers), and periods never go up. */
  lemma {:induction false} ScanPeriods(game: Game, rows: seq<Row>)
    ensures var st := Scan(game, rows); var n: int := CountMarkers(rows);
      (forall k :: 0 <= k < |st.plays| ==>
         st.plays[k].game == game && -n <= st.plays[k].time.period <= -1)
      && (forall k1, k2 :: 0 <= k1 < k2 < |st.plays| ==>
            st.plays[k1].time.period >= st.plays[k2].time.period)
  {
    if rows != [] {
      ScanPeriods(game, rows[..|rows| - 1]);
      ScanCounter(game, rows[..|rows| - 1]);
      ScanCounter(game, rows);
    }
  }

  /** After renumbering every play lies in a period from 1 to N, and the plays
      are in ascending period order. */
  lemma ParsePeriods(game: Game, rows: seq<Row>)
    ensures var pbp := ParsePlays(game, rows); var n := CountMarkers(rows);
      (forall k :: 0 <= k < |pbp| ==> pbp[k].game == game && 1 <= pbp[k].time.period <= n)
      && (forall k1, k2 :: 0 <= k1 < k2 < |pbp| ==> pbp[k1].time.period <= pbp[k2].time.period)
  {
    var st := Scan(game, rows);
    ScanPeriods(game, rows);
    ScanCounter(game, rows);
    ReverseShiftedAt(st.plays, 1 - st.period);
    var pbp := ParsePlays(game, rows);
    forall k1, k2 | 0 <= k1 < k2 < |pbp|
      ensures pbp[k1].time.period <= pbp[k2].time.period
    {
      assert pbp[k1] == Shifted(st.plays[|st.plays| - 1 - k1], 1 - st.period);
      assert pbp[k2] == Shifted(st.plays[|st.plays| - 1 - k2], 1 - st.period);
    }
  }

  /** The end-of-period plays of a list, in order. */
  function EndOfPeriodPlays(plays: seq<Play>): seq<Play> {
    if plays == [] then []
    else EndOfPeriodPlays(plays[..|plays| - 1])
         + (if plays[|plays| - 1].kind == EndOfPeriod then [plays[|plays| - 1]] else [])
  }

  lemma {:induction false} EndOfPeriodPlaysAppend(a: seq<Play>, b: seq<Play>)
    ensures EndOfPeriodPlays(a + b) == EndOfPeriodPlays(a) + EndOfPeriodPlays(b)
    decreases |b|
  {
    if b == [] {
      assert a + b == a;
    } else {
      assert (a + b)[..|a + b| - 1] == a + b[..|b| - 1];
      EndOfPeriodPlaysAppend(a, b[..|b| - 1]);
    }
  }

  /** Taking the end-of-period plays commutes with reversing and shifting. */
  lemma {:induction false} EndOfPeriodPlaysReverseShifted(plays: seq<Play>, delta: int)
    ensures EndOfPeriodPlays(ReverseShifted(plays, delta)) == ReverseShifted(EndOfPeriodPlays(plays), delta)
  {
    if plays != [] {
      var rest := plays[1..];
      EndOfPeriodPlaysReverseShifted(rest, delta);
      assert plays == [plays[0]] + rest;
      EndOfPeriodPlaysAppend([plays[0]], rest);
      var r := ReverseShifted(rest, delta);
      assert (r + [Shifted(plays[0], delta)])[..|r|] == r;
      if plays[0].kind == EndOfPeriod {
        assert ([plays[0]] + EndOfPeriodPlays(rest))[1..] == EndOfPeriodPlays(rest);
      } else {
        assert [plays[0]][..0] == [];
        assert EndOfPeriodPlays([plays[0]]) == [];
        assert EndOfPeriodPlays(plays) == EndOfPeriodPlays(rest);
        assert ReverseShifted(plays, delta) == r + [Shifted(plays[0], delta)];
      }
    }
  }

  /** The end-of-period plays after one row: those before it, then the row's
      own end-of-period play if it is an end marker. */
  lemma ScanRowEndOfPeriodPlays(game: Game, st: ScanState, row: Row)
    ensures EndOfPeriodPlays(ScanRow(game, st, row).plays)
      == EndOfPeriodPlays(st.plays)
         + (if IsEndMarker(row) then [Play(game, HockeyTime(st.period - 1, "20:00"), EndOfPeriod, None)] else [])
  {
    var next := ScanRow(game, st, row);
    var period := next.period;
    var endOfPeriod := if IsEndMarker(row) then [Play(game, HockeyTime(period, "20:00"), EndOfPeriod, None)] else [];
    var play := next.plays[|st.plays| + |endOfPeriod|..];
    assert next.plays == st.plays + endOfPeriod + play;
    assert |play| <= 1;
    assert forall k :: 0 <= k < |play| ==> play[k].kind != EndOfPeriod;
    EndOfPeriodPlaysAppend(st.plays + endOfPeriod, play);
    EndOfPeriodPlaysAppend(st.plays, endOfPeriod);
    if play != [] {
      assert play[..0] == [];
    }
    if endOfPeriod != [] {
      assert endOfPeriod[..0] == [];
    }
  }

  /** In page order, the end-of-period plays are one per end marker, with
      periods -1, -2, ..., -N, no team and clock "20:00". */
  lemma {:induction false} ScanEndOfPeriodPlays(game: Game, rows: seq<Row>)
    ensures var eops := EndOfPeriodPlays(Scan(game, rows).plays);
      |eops| == CountMarkers(rows)
      && forall j :: 0 <= j < |eops| ==> eops[j] == Play(game, HockeyTime(-(j + 1), "20:00"), EndOfPeriod, None)
  {
    if rows != [] {
      var init := rows[..|rows| - 1];
      ScanEndOfPeriodPlays(game, init);
      ScanCounter(game, init);
      ScanRowEndOfPeriodPlays(game, Scan(game, init), rows[|rows| - 1]);
    }
  }

  /** In the result, the end-of-period plays are one per end marker, in order,
      with periods 1, 2, ..., N: the j-th is the (N-1-j)-th marker of the page,
      so the first marker on the page closes period N and the last closes
      period 1. None of them carries a team. */
  lemma ParseEndOfPeriodPlays(game: Game, rows: seq<Row>)
    ensures var eops := EndOfPeriodPlays(ParsePlays(game, rows));
      |eops| == CountMarkers(rows)
      && forall j :: 0 <= j < |eops| ==> eops[j] == Play(game, HockeyTime(j + 1, "20:00"), EndOfPeriod, None)
  {
    var st := Scan(game, rows);
    ScanCounter(game, rows);
    ScanEndOfPeriodPlays(game, rows);
    EndOfPeriodPlaysReverseShifted(st.plays, 1 - st.period);
    ReverseShiftedAt(EndOfPeriodPlays(st.plays), 1 - st.period);
  }

  /** A play other than end-of-period comes from a row of exactly five spans
      whose description classifies as the play's kind, with the team of span 2
      and the clock of span 3. */
  predicate FromRow(p: Play, row: Row) {
    |row| == 5 && Classify(row[4]) == Some(p.kind) && p.team == Some(row[2]) && p.time.clock == row[3]
  }

  lemma {:induction false} ScanProvenance(game: Game, rows: seq<Row>)
    ensures var plays := Scan(game, rows).plays;
      forall k :: 0 <= k < |plays| && plays[k].kind != EndOfPeriod ==>
        exists i :: 0 <= i < |rows| && FromRow(plays[k], rows[i])
  {
    if rows != [] {
      var init := rows[..|rows| - 1];
      ScanProvenance(game, init);
      var old_plays := Scan(game, init).plays;
      var plays := Scan(game, rows).plays;
      forall k | 0 <= k < |plays| && plays[k].kind != EndOfPeriod
        ensures exists i :: 0 <= i < |rows| && FromRow(plays[k], rows[i])
      {
        if k < |old_plays| {
          assert plays[k] == old_plays[k];
          var i :| 0 <= i < |init| && FromRow(old_plays[k], init[i]);
          assert init[i] == rows[i];
        } else {
          assert FromRow(plays[k], rows[|rows| - 1]);
        }
      }
    }
  }

  /** Only rows of exactly five spans produce goals, face-offs and shots, and
      they carry the team of span 2 and the clock of span 3. */
  lemma ParseProvenance(game: Game, rows: seq<Row>)
    ensures var pbp := ParsePlays(game, rows);
      forall k :: 0 <= k < |pbp| && pbp[k].kind != EndOfPeriod ==>
        exists i :: 0 <= i < |rows| && FromRow(pbp[k], rows[i])
  {
    var st := Scan(game, rows);
    ScanProvenance(game, rows);
    ReverseShiftedAt(st.plays, 1 - st.period);
    var pbp := ParsePlays(game, rows);
    forall k | 0 <= k < |pbp| && pbp[k].kind != EndOfPeriod
      ensures exists i :: 0 <= i < |rows| && FromRow(pbp[k], rows[i])
    {
      var q := st.plays[|st.plays| - 1 - k];
      assert pbp[k] == Shifted(q, 1 - st.period);
      var i :| 0 <= i < |rows| && FromRow(q, rows[i]);
      assert FromRow(pbp[k], rows[i]);
    }
  }

  /** The rows that yield a classified play: five spans, a description that
      classifies, at or after the first end marker. */
  function CountPlayRows(rows: seq<Row>): nat {
    if rows == [] then 0
    else
      var row := rows[|rows| - 1];
      CountPlayRows(rows[..|rows| - 1])
      + (if CountMarkers(rows) > 0 && |row| == 5 && Classify(row[4]).Some? then 1 else 0)
  }

  /** No row is lost and none is counted twice: the page yields one play per end
      marker plus one per classified five-span row after the first marker. */
  lemma {:induction false} ParsePlayCount(game: Game, rows: seq<Row>)
    ensures |ParsePlays(game, rows)| == CountMarkers(rows) + CountPlayRows(rows)
  {
    ScanPlayCount(game, rows);
    var st := Scan(game, rows);
    ReverseShiftedAt(st.plays, 1 - st.period);
  }

  lemma {:induction false} ScanPlayCount(game: Game, rows: seq<Row>)
    ensures |Scan(game, rows).plays| == CountMarkers(rows) + CountPlayRows(rows)
  {
    if rows != [] {
      ScanPlayCount(game, rows[..|rows| - 1]);
      ScanCounter(game, rows[..|rows| - 1]);
      ScanCounter(game, rows);
    }
  }

  // ===========================================================================
  // Schedule pages

  /** One cell of a schedule row: the `href` of its first link, or None when
      the cell has no link or the link no `href`. */
  type Cell = Option<string>

  /** `link.split("teams/")[1].split("/")[0]`, or None where that raises
      (no "teams/" in the link). */
  function TeamCode(link: string): (r: Option<string>)
    ensures r.None? <==> !Contains(link, "teams/")
  {
    var i := Find(link, "teams/");
    if i == -1 then None
    else
      var rest := link[i + 6..];
      var j := Find(rest, "teams/");
      var segment := if j == -1 then rest else rest[..j];
      var k := Find(segment, "/");
      Some(if k == -1 then segment else segment[..k])
  }

  /** The code is what follows the first "teams/" up to the first "/", the next
      "teams/" or the end, whichever comes first. */
  lemma TeamCodeIsSegment(link: string)
    requires Contains(link, "teams/")
    ensures var code := TeamCode(link).value;
            var rest := link[Find(link, "teams/") + 6..];
      code <= rest
      && '/' !in code
      && (forall p :: 0 <= p < |code| ==> !OccursAt(rest, "teams/", p))
      && (|code| == |rest| || rest[|code|] == '/' || OccursAt(rest, "teams/", |code|))
  {
    var i := Find(link, "teams/");
    var rest := link[i + 6..];
    var j := Find(rest, "teams/");
    var segment := if j == -1 then rest else rest[..j];
    var k := Find(segment, "/");
    var code := TeamCode(link).value;
    assert code == if k == -1 then segment else segment[..k];
    forall p | 0 <= p < |code|
      ensures code[p] != '/'
    {
      OccursAtChar(segment, '/', p);
    }
    if k != -1 {
      OccursAtChar(segment, '/', k);
    }
    if j != -1 {
      forall p | 0 <= p < |code|
        ensures !OccursAt(rest, "teams/", p)
      {
      }
    }
  }

  /** The team code of one cell, None where the Python code raises. */
  function CellTeam(cell: Cell): Option<Team> {
    match cell
    case None => None
    case Some(link) => TeamCode(link)
  }

  /** The game a schedule row describes, or None when the row is skipped: fewer
      than two cells, a cell without a link, a link without "teams/", or an
      empty team code. */
  function RowGame(date: Date, cells: seq<Cell>): Option<Game> {
    if |cells| < 2 then None
    else
      var away := CellTeam(cells[0]);
      var home := CellTeam(cells[1]);
      if away.Some? && away.value != "" && home.Some? && home.value != ""
      then Some(ScheduledGame(date, away.value, home.value))
      else None
  }

  /** One row of the schedule loop: reads the away team from cell 0 and the home
      team from cell 1, stops after cell 3, and skips the row when either read
      raises or yields an empty code. */
  method ReadScheduleRow(date: Date, cells: seq<Cell>) returns (game: Option<Game>)
    ensures game == RowGame(date, cells)
  {
    var awayTeam: Option<Team> := None;
    var homeTeam: Option<Team> := None;
    var tdi := 0;
    while tdi < |cells|
      invariant 0 <= tdi <= |cells|
      invariant awayTeam == (if tdi >= 1 then CellTeam(cells[0]) else None)
      invariant homeTeam == (if tdi >= 2 then CellTeam(cells[1]) else None)
    {
      if tdi == 0 {
        awayTeam := CellTeam(cells[0]);
        if awayTeam.None? {
          return None;
        }
      }
      if tdi == 1 {
        homeTeam := CellTeam(cells[1]);
        if homeTeam.None? {
          return None;
        }
      }
      if tdi > 2 {
        break;
      }
      tdi := tdi + 1;
    }
    if awayTeam.None? || awayTeam.value == "" || homeTeam.None? || homeTeam.value == "" {
      return None;
    }
    game := Some(ScheduledGame(date, awayTeam.value, homeTeam.value));
  }

  /** The keyword arguments the attrs-generated constructor of `Game`, as
      shared_types.py declares it, accepts. Any other keyword raises TypeError. */
  const DeclaredGameFields: set<string> := {"home", "away", "home_score", "away_score"}

  /** `Game(date=date, away=away, home=home)` against that declaration: None
      where the constructor raises. */
  function ConstructDeclaredGame(date: Date, away: Team, home: Team): (r: Option<Game>)
    ensures r.Some? <==> "date" in DeclaredGameFields
  {
    if {"date", "away", "home"} <= DeclaredGameFields then Some(ScheduledGame(date, away, home)) else None
  }

  /** A schedule row as the code is written: the row's game is built through
      the declared constructor, and the TypeError it raises is swallowed by the
      row's bare `except`, like any other failure. */
  function RowGameAsWritten(date: Date, cells: seq<Cell>): (r: Option<Game>)
    ensures r.None?
  {
    if |cells| < 2 then None
    else
      var away := CellTeam(cells[0]);
      var home := CellTeam(cells[1]);
      if away.Some? && away.value != "" && home.Some? && home.value != ""
      then ConstructDeclaredGame(date, away.value, home.value)
      else None
  }

  /** A well-formed row that the corrected reading turns into a game is dropped
      as the code is written. */
  lemma AsWrittenDropsWellFormedRow(date: Date)
    ensures RowGame(date, [Some("teams/A"), Some("teams/B")]) == Some(ScheduledGame(date, "A", "B"))
    ensures RowGameAsWritten(date, [Some("teams/A"), Some("teams/B")]).None?
  {
    assert OccursAt("teams/A", "teams/", 0);
    assert OccursAt("teams/B", "teams/", 0);
    assert "teams/A"[6..] == "A" && "teams/B"[6..] == "B";
    OccursAtChar("A", '/', 0);
    OccursAtChar("B", '/', 0);
    assert Find("A", "/") == -1 && Find("B", "/") == -1;
  }

  /** The games of a schedule table, row by row, skipping rows that fail. */
  function ScheduleGames(date: Date, rows: seq<seq<Cell>>): seq<Game> {
    if rows == [] then []
    else
      ScheduleGames(date, rows[..|rows| - 1])
      + (match RowGame(date, rows[|rows| - 1]) case None => [] case Some(g) => [g])
  }

  /** `get_games(date)` on the schedule page's table: no table means no games;
      otherwise each row that reads cleanly gives one game, in row order. */
  method GetGamesForDate(date: Date, table: Option<seq<seq<Cell>>>) returns (games: seq<Game>)
    ensures table.None? ==> games == []
    ensures table.Some? ==> games == ScheduleGames(date, table.value)
  {
    if table.None? {
      return [];
    }
    var rows := table.value;
    games := [];
    for i := 0 to |rows|
      invariant games == ScheduleGames(date, rows[..i])
    {
      assert rows[..i + 1][..i] == rows[..i];
      var game := ReadScheduleRow(date, rows[i]);
      if game.Some? {
        games := games + [game.value];
      }
    }
    assert rows[..|rows|] == rows;
  }

  lemma {:induction false} ScheduleGamesAppend(date: Date, a: seq<seq<Cell>>, b: seq<seq<Cell>>)
    ensures ScheduleGames(date, a + b) == ScheduleGames(date, a) + ScheduleGames(date, b)
    decreases |b|
  {
    if b == [] {
      assert a + b == a;
    } else {
      assert (a + b)[..|a + b| - 1] == a + b[..|b| - 1];
      ScheduleGamesAppend(date, a, b[..|b| - 1]);
    }
  }

  /** A row that fails is dropped and the rows around it are kept, in order. */
  lemma {:induction false} ScheduleSkipsFailedRow(date: Date, before: seq<seq<Cell>>, bad: seq<Cell>, after: seq<seq<Cell>>)
    requires RowGame(date, bad).None?
    ensures ScheduleGames(date, before + [bad] + after) == ScheduleGames(date, before) + ScheduleGames(date, after)
  {
    var withBad := before + [bad];
    assert withBad[..|withBad| - 1] == before;
    assert withBad[|withBad| - 1] == bad;
    assert ScheduleGames(date, withBad) == ScheduleGames(date, before);
    ScheduleGamesAppend(date, withBad, after);
  }

  /** Every scheduled game carries the page's date, scores of 0 and two
      non-empty team codes without "/"; there is at most one game per row. */
  lemma {:induction false} ScheduleGamesWellFormed(date: Date, rows: seq<seq<Cell>>)
    ensures var games := ScheduleGames(date, rows);
      |games| <= |rows|
      && forall k :: 0 <= k < |games| ==>
        games[k].date == Some(date) && games[k].homeScore == 0 && games[k].awayScore == 0
        && games[k].home != "" && games[k].away != "" && '/' !in games[k].home && '/' !in games[k].away
  {
    if rows != [] {
      ScheduleGamesWellFormed(date, rows[..|rows| - 1]);
      var cells := rows[|rows| - 1];
      if |cells| >= 2 {
        if CellTeam(cells[0]).Some? {
          TeamCodeIsSegment(cells[0].value);
        }
        if CellTeam(cells[1]).Some? {
          TeamCodeIsSegment(cells[1].value);
        }
      }
    }
  }

  // ===========================================================================
  // Seasons and data sets

  /** The schedule table a date's page holds (None when it has none). */
  type SchedulePages = Date -> Option<seq<seq<Cell>>>

  function DateGames(date: Date, pages: SchedulePages): seq<Game> {
    match pages(date)
    case None => []
    case Some(rows) => ScheduleGames(date, rows)
  }

  /** The games of each date in turn, concatenated. */
  function GamesOnDates(dates: seq<Date>, pages: SchedulePages): seq<Game> {
    if dates == [] then []
    else GamesOnDates(dates[..|dates| - 1], pages) + DateGames(dates[|dates| - 1], pages)
  }

  /** Appends the games one at a time, in order. */
  method AppendEach(result: seq<Game>, games: seq<Game>) returns (r: seq<Game>)
    ensures r == result + games
  {
    r := result;
    for k := 0 to |games|
      invariant r == result + games[..k]
    {
      assert games[..k + 1] == games[..k] + [games[k]];
      r := r + [games[k]];
    }
    assert games[..|games|] == games;
  }

  /** `get_games(season)`: the games of every date of the season, date by date. */
  method GetSeasonGames(season: Season, pages: SchedulePages) returns (r: Result<seq<Game>, Error>)
    ensures r.Err? <==> !SeasonInRange(season.year)
    ensures r.Err? ==> r.error == DateOutOfRange
    ensures r.Ok? ==> exists dates :: IsSeasonWalk(season.year, dates) && r.value == GamesOnDates(dates, pages)
  {
    var all := season.GetAllDates();
    if all.Err? {
      return Err(all.error);
    }
    var dates := all.value;
    var result: seq<Game> := [];
    for i := 0 to |dates|
      invariant result == GamesOnDates(dates[..i], pages)
    {
      var games := GetGamesForDate(dates[i], pages(dates[i]));
      assert dates[..i + 1][..i] == dates[..i];
      result := AppendEach(result, games);
    }
    assert dates[..|dates|] == dates;
    r := Ok(result);
  }

  /** Every game carries a date, and that date is one of `dates`. */
  predicate DatedFrom(games: seq<Game>, dates: seq<Date>) {
    forall k :: 0 <= k < |games| ==> games[k].date.Some? && games[k].date.value in dates
  }

  /** The games carry dates, in non-decreasing order. */
  predicate InDateOrder(games: seq<Game>) {
    forall k1, k2 :: 0 <= k1 < k2 < |games| ==>
      games[k1].date.Some? && games[k2].date.Some? && games[k1].date.value <= games[k2].date.value
  }

  /** Every game carries the date `d`. */
  predicate AllDated(games: seq<Game>, d: Date) {
    forall k :: 0 <= k < |games| ==> games[k].date == Some(d)
  }

  /** Every game read for a date carries that date. */
  lemma DateGamesDated(date: Date, pages: SchedulePages)
    ensures AllDated(DateGames(date, pages), date)
  {
    if pages(date).Some? {
      ScheduleGamesWellFormed(date, pages(date).value);
    }
  }

  /** Games of a later date appended to an ordered list keep it ordered. */
  lemma OrderedAppend(a: seq<Game>, b: seq<Game>, init: seq<Date>, last: Date)
    requires DatedFrom(a, init) && InDateOrder(a)
    requires forall i :: 0 <= i < |init| ==> init[i] < last
    requires AllDated(b, last)
    ensures DatedFrom(a + b, init + [last]) && InDateOrder(a + b)
  {
    var games := a + b;
    var dates := init + [last];
    forall k | 0 <= k < |a|
      ensures games[k] == a[k] && a[k].date.Some? && a[k].date.value < last && a[k].date.value in dates
    {
      var i :| 0 <= i < |init| && init[i] == a[k].date.value;
      assert dates[i] == init[i];
    }
    forall k | |a| <= k < |games|
      ensures games[k].date == Some(last) && last in dates
    {
      assert games[k] == b[k - |a|];
      assert dates[|init|] == last;
    }
  }

  /** Over strictly increasing dates, every game carries one of the dates and
      the games come in date order. */
  lemma {:induction false} GamesOnDatesOrdered(dates: seq<Date>, pages: SchedulePages)
    requires forall i, j :: 0 <= i < j < |dates| ==> dates[i] < dates[j]
    ensures DatedFrom(GamesOnDates(dates, pages), dates)
    ensures InDateOrder(GamesOnDates(dates, pages))
  {
    if dates != [] {
      var init := dates[..|dates| - 1];
      var last := dates[|dates| - 1];
      GamesOnDatesOrdered(init, pages);
      DateGamesDated(last, pages);
      assert init + [last] == dates;
      OrderedAppend(GamesOnDates(init, pages), DateGames(last, pages), init, last);
    }
  }

  /** Every game of a season list is dated within the season, and the list is
      in date order. */
  lemma SeasonGamesInSeason(year: int, dates: seq<Date>, pages: SchedulePages)
    requires IsSeasonWalk(year, dates)
    ensures forall k :: 0 <= k < |GamesOnDates(dates, pages)| ==>
      GamesOnDates(dates, pages)[k].date.Some? && InSeason(Decode(GamesOnDates(dates, pages)[k].date.value), year)
    ensures InDateOrder(GamesOnDates(dates, pages))
  {
    forall i, j | 0 <= i < j < |dates|
      ensures dates[i] < dates[j]
    {
      SeasonWalkIncreasing(year, dates, i, j);
    }
    GamesOnDatesOrdered(dates, pages);
    var games := GamesOnDates(dates, pages);
    forall k | 0 <= k < |games|
      ensures games[k].date.Some? && InSeason(Decode(games[k].date.value), year)
    {
      assert games[k].date.Some? && games[k].date.value in dates;
      var i :| 0 <= i < |dates| && dates[i] == games[k].date.value;
      SeasonWalkInSeason(year, dates, i);
    }
  }

  datatype TrainTest = TrainTest(train: seq<Game>, test: seq<Game>)

  /** `m / d` is the floor of the quotient. */
  lemma FloorQuotient(m: int, d: int)
    requires m >= 0 && d > 0
    ensures 0 <= m / d
    ensures (m / d) * d <= m < (m / d + 1) * d
  {
    assert m == d * (m / d) + m % d;
    assert (m / d + 1) * d == (m / d) * d + d;
  }

  /** Multiplying by a positive factor reflects the order. */
  lemma ScaledOrder(a: int, b: int, d: int)
    requires d > 0 && a * d <= b * d
    ensures a <= b
  {
    assert b * d - a * d == (b - a) * d;
  }

  /** The first `floor(n * (1 - p))` games train, the rest test, for a test
      portion `p = testNum / testDen`. */
  function SplitDataset(games: seq<Game>, testNum: int, testDen: int): (tt: TrainTest)
    requires 0 < testNum < testDen
    ensures tt.train + tt.test == games
    ensures |tt.train| * testDen <= |games| * (testDen - testNum) < (|tt.train| + 1) * testDen
  {
    var n := |games|;
    var m := n * (testDen - testNum);
    var cutoff := m / testDen;
    FloorQuotient(m, testDen);
    assert m <= n * testDen by {
      assert n * testDen - m == n * testNum;
    }
    ScaledOrder(cutoff, n, testDen);
    assert games[..cutoff] + games[cutoff..] == games;
    TrainTest(games[..cutoff], games[cutoff..])
  }

  /** The test part is never empty when there are games: it holds at least the
      portion `p` of them (`ceil(n * p)` games). */
  lemma SplitTestShare(games: seq<Game>, testNum: int, testDen: int)
    requires 0 < testNum < testDen
    ensures var tt := SplitDataset(games, testNum, testDen);
      |tt.test| * testDen >= |games| * testNum
      && (|games| > 0 ==> |tt.test| > 0)
  {
    var tt := SplitDataset(games, testNum, testDen);
    assert |tt.test| == |games| - |tt.train|;
    assert |tt.test| * testDen == |games| * testDen - |tt.train| * testDen;
    if |games| > 0 {
      assert |games| * testNum > 0;
    }
  }

  /** Ten games with a test portion of 0.2: the first eight train, the last two test. */
  lemma SplitTenGames(games: seq<Game>)
    requires |games| == 10
    ensures SplitDataset(games, 1, 5) == TrainTest(games[..8], games[8..])
  {
  }

  /** `make_dataset(season, testNum / testDen)`, the test portion defaulting to
      0.2 (1 / 5): rejects a test portion outside (0, 1) before reading any
      schedule, then splits the season's games. */
  method MakeDataset(season: Season, pages: SchedulePages, testNum: int := 1, testDen: int := 5) returns (r: Result<TrainTest, Error>)
    requires testDen > 0
    ensures !(0 < testNum < testDen) ==> r == Err(InvalidFraction)
    ensures 0 < testNum < testDen && !SeasonInRange(season.year) ==> r == Err(DateOutOfRange)
    ensures 0 < testNum < testDen && SeasonInRange(season.year) ==>
      r.Ok? && exists dates :: IsSeasonWalk(season.year, dates)
                && r.value == SplitDataset(GamesOnDates(dates, pages), testNum, testDen)
  {
    if !(0 < testNum < testDen) {
      return Err(InvalidFraction);
    }
    var games := GetSeasonGames(season, pages);
    if games.Err? {
      return Err(games.error);
    }
    r := Ok(SplitDataset(games.value, testNum, testDen));
  }
}
