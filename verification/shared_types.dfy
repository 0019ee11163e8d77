/** The shared value types: a game, a hockey season and the dates it spans. */
module SharedTypes {
  import opened Wrappers
  import opened Calendar

  /** A date as a `YYYYMMDD` integer. */
  type Date = int
  type Team = string

  /** A game between two teams. `date` is absent for a game used only as a
      query (a pairing of teams with no schedule date). Equality is structural,
      over all five fields, as the attrs-generated `__eq__` is. */
  datatype Game = Game(home: Team, away: Team, homeScore: int := 0, awayScore: int := 0, date: Option<Date> := None)

  /** The failures the modelled code raises: `ValueError` from `datetime.date`
      for a year outside its range, and the failed assertion on the test portion. */
  datatype Error = DateOutOfRange | InvalidFraction

  /** A scheduled game as the schedule scraper builds it: both scores default to 0. */
  function ScheduledGame(date: Date, away: Team, home: Team): (g: Game)
    ensures g.homeScore == 0 && g.awayScore == 0
    ensures g.date == Some(date) && g.away == away && g.home == home
  {
    Game(home, away, date := Some(date))
  }

  /** Two games are equal exactly when all their fields are. */
  lemma GameEqualityIsFieldwise(g1: Game, g2: Game)
    ensures g1 == g2 <==>
      g1.home == g2.home && g1.away == g2.away && g1.homeScore == g2.homeScore
      && g1.awayScore == g2.awayScore && g1.date == g2.date
  {
  }

  /** The first and last dates of the season that starts in `year`. */
  function SeasonStart(year: int): CalendarDate { CalendarDate(year, 10, 1) }
  function SeasonEnd(year: int): CalendarDate { CalendarDate(year + 1, 4, 30) }

  /** `datetime.date` accepts both the first and the last day of the season. */
  predicate SeasonInRange(year: int) {
    MinYear <= year && year + 1 <= MaxYear
  }

  /** A date of the season starting in `year`: October to December of `year`,
      January to April of `year + 1`. */
  predicate InSeason(d: CalendarDate, year: int) {
    (d.year == year && 10 <= d.month <= 12) || (d.year == year + 1 && 1 <= d.month <= 4)
  }

  /** The sequence of encoded dates that a day-by-day walk from 1 October of
      `year` to 30 April of `year + 1` yields: it starts at the first, every
      element is a valid date and the next element is the following day, and it
      ends at the last. */
  predicate IsSeasonWalk(year: int, dates: seq<Date>) {
    SeasonInRange(year)
    && |dates| > 0
    && dates[0] == Encode(SeasonStart(year))
    && dates[|dates| - 1] == Encode(SeasonEnd(year))
    && (forall i :: 0 <= i < |dates| ==> Valid(Decode(dates[i])))
    && (forall i :: 0 <= i < |dates| - 1 ==> StepsToNextDay(dates, i))
  }

  /** The element after index `i` is the day after the date at `i`. */
  predicate StepsToNextDay(dates: seq<Date>, i: int)
    requires 0 <= i < |dates| - 1
    requires Valid(Decode(dates[i]))
  {
    dates[i + 1] == Encode(NextDay(Decode(dates[i])))
  }

  /** A hockey season, named by the year it starts in (2018 for 2018-19). */
  class Season {
    const year: int

    constructor (year: int)
      ensures this.year == year
    {
      this.year := year;
    }

    /** Every date from 1 October of `year` through 30 April of `year + 1`, in
        order, each encoded as `YYYYMMDD`. */
    method GetAllDates() returns (r: Result<seq<Date>, Error>)
      ensures r.Err? <==> !SeasonInRange(year)
      ensures r.Err? ==> r.error == DateOutOfRange
      ensures r.Ok? ==> IsSeasonWalk(year, r.value)
      ensures r.Ok? ==> r.value[0] == year * 10000 + 1001
      ensures r.Ok? ==> r.value[|r.value| - 1] == (year + 1) * 10000 + 430
    {
      if !SeasonInRange(year) {
        return Err(DateOutOfRange);
      }
      var cursor := SeasonStart(year);
      var endGate := SeasonEnd(year);
      var dates: seq<Date> := [];
      ghost var days: seq<CalendarDate> := [];
      while LessEq(cursor, endGate)
        invariant Valid(cursor)
        invariant |days| == |dates|
        invariant |days| == 0 <==> cursor == SeasonStart(year)
        invariant |days| > 0 ==> days[0] == SeasonStart(year)
        invariant forall i :: 0 <= i < |days| ==> Valid(days[i]) && dates[i] == Encode(days[i])
        invariant |days| > 0 ==> LessEq(days[|days| - 1], endGate) && cursor == NextDay(days[|days| - 1])
        invariant forall i :: 0 <= i < |days| - 1 ==> days[i + 1] == NextDay(days[i])
        decreases Encode(endGate) - Encode(cursor)
      {
        EncodeOrder(cursor, endGate);
        EncodeOrder(cursor, NextDay(cursor));
        dates := dates + [Encode(cursor)];
        days := days + [cursor];
        cursor := NextDay(cursor);
      }
      if days[|days| - 1] != endGate {
        NextDayNoSkip(days[|days| - 1], endGate);
      }
      forall i | 0 <= i < |days|
        ensures Decode(dates[i]) == days[i]
      {
        DecodeEncode(days[i]);
      }
      forall i | 0 <= i < |dates| - 1
        ensures StepsToNextDay(dates, i)
      {
        assert days[i + 1] == NextDay(days[i]);
      }
      r := Ok(dates);
    }
  }

  /** Along a season walk, the i-th element is i days after 1 October. */
  lemma {:induction false} SeasonWalkOrdinal(year: int, dates: seq<Date>, i: nat)
    requires IsSeasonWalk(year, dates)
    requires i < |dates|
    ensures Encode(Decode(dates[i])) == dates[i]
    ensures Ordinal(Decode(dates[i])) == Ordinal(SeasonStart(year)) + i
  {
    if i == 0 {
      DecodeEncode(SeasonStart(year));
    } else {
      SeasonWalkOrdinal(year, dates, i - 1);
      assert StepsToNextDay(dates, i - 1);
      var prev := Decode(dates[i - 1]);
      DecodeEncode(NextDay(prev));
      NextDayOrdinal(prev);
    }
  }

  /** A season has 212 days, 213 when February of `year + 1` has 29 days. */
  lemma SeasonWalkLength(year: int, dates: seq<Date>)
    requires IsSeasonWalk(year, dates)
    ensures |dates| == if IsLeapYear(year + 1) then 213 else 212
  {
    SeasonWalkOrdinal(year, dates, |dates| - 1);
    DecodeEncode(SeasonEnd(year));
    DaysBeforeYearStep(year);
  }

  /** Every element of a season walk is a date of that season, and none of another. */
  lemma SeasonWalkInSeason(year: int, dates: seq<Date>, i: nat)
    requires IsSeasonWalk(year, dates)
    requires i < |dates|
    ensures InSeason(Decode(dates[i]), year)
    ensures LessEq(SeasonStart(year), Decode(dates[i])) && LessEq(Decode(dates[i]), SeasonEnd(year))
  {
    SeasonWalkOrdinal(year, dates, i);
    SeasonWalkOrdinal(year, dates, |dates| - 1);
    DecodeEncode(SeasonEnd(year));
    OrdinalOrder(SeasonStart(year), Decode(dates[i]));
    OrdinalOrder(Decode(dates[i]), SeasonEnd(year));
  }

  /** The walk is strictly increasing. */
  lemma SeasonWalkIncreasing(year: int, dates: seq<Date>, i: nat, j: nat)
    requires IsSeasonWalk(year, dates)
    requires i < j < |dates|
    ensures dates[i] < dates[j]
  {
    SeasonWalkOrdinal(year, dates, i);
    SeasonWalkOrdinal(year, dates, j);
    OrdinalOrder(Decode(dates[i]), Decode(dates[j]));
    EncodeOrder(Decode(dates[i]), Decode(dates[j]));
  }

  /** The walk is determined by the year: two walks of one season are equal. */
  lemma SeasonWalkUnique(year: int, dates1: seq<Date>, dates2: seq<Date>)
    requires IsSeasonWalk(year, dates1) && IsSeasonWalk(year, dates2)
    ensures dates1 == dates2
  {
    SeasonWalkLength(year, dates1);
    SeasonWalkLength(year, dates2);
    forall i | 0 <= i < |dates1|
      ensures dates1[i] == dates2[i]
    {
      SeasonWalkOrdinal(year, dates1, i);
      SeasonWalkOrdinal(year, dates2, i);
      OrdinalOrder(Decode(dates1[i]), Decode(dates2[i]));
    }
  }
}
