# simple-nhl core, modelled in Dafny

This project models the deterministic core of simple-nhl, a small NHL scraper
and dataset builder, and proves properties of that model. The core covers:

- **Play-by-play scanner** (`_load_game_data_online`). A game's play-by-play
  page is a sequence of rows, each row the texts of its `<span>`s. The scanner
  ignores everything up to the first "End of " row. It counts periods downwards
  and emits an end-of-period play at "20:00" for every such row. It classifies
  five-span rows as goal, face-off or shot by substring search, in a fixed
  precedence. At the end it reverses the list and renumbers the periods from 1.
- **Schedule scanner** (the row loop of `get_games(date)`). It extracts the
  away and home team codes from the `href`s of a row's first two cells
  (`split("teams/")[1].split("/")[0]`). A row is skipped whenever any step
  fails.
- **Season list and data set**. `get_games(season)` concatenates the games of
  every date of the season. `make_dataset` splits them into a training prefix
  and a test suffix.
- **Caching** (`cache.py`). This covers the key-to-path transform, the
  `NoCacher` and `BasicCacher` strategies over a file store, and the
  `memoize` read / compute-on-miss / write-back wrapper.
- **Shared types**. `Game`, and `Season.get_all_dates`, the day-by-day walk
  from 1 October to 30 April in the proleptic Gregorian calendar of Python's
  `datetime.date`.

Files:
- `wrappers.dfy`: `Option` and `Result`.
- `calendar.dfy`: date validity, the next day, the `YYYYMMDD` encoding and
  `toordinal`.
- `text.dfy`: `str.find` and `str.lower`.
- `shared_types.dfy`: `Game`, `Season` and the season walk.
- `cache.dfy`: key transform, cachers, memoize.
- `game_data.dfy`: scanners, season list and data set split.

Modelling choices:
- The file system is a class `FileStore` whose `files` map is updated in place
  by `Write` and `Memoize`.
- The scanner's and the season's loops are methods, each proved equal to a
  specification function. The properties are lemmas about those functions.
- `DATA_DIR` is a parameter: the `dataDir` of `BasicCacher`.
- The function `memoize` wraps is a closure that returns `Ok` with its value
  or `Err` with the exception it raised.
- A schedule page is its table: `None` when the page has none. Otherwise it is
  the rows, each row the list of its cells, and each cell the `href` of its
  first link (`None` when the cell has no link or the link no `href`).
- `get_games(season)` takes the schedule of every date as a function
  `SchedulePages` from date to table.
- `Game` carries the optional `date` that game_data.py:22 and game_data.py:129
  use. See "## Findings".

## Model

| member | source | states |
|---|---|---|
| Calendar.NextDay | shared_types.py:40 | the day after a valid date is strictly later, and is again a valid date unless it leaves year 9999 |
| Calendar.DecodeEncode | shared_types.py:39 | reading a `YYYYMMDD` integer back recovers the year, month and day it was built from |
| Calendar.EncodeOrder | shared_types.py:38-39 | on valid dates, `YYYYMMDD` order is date order and equal encodings mean equal dates |
| Calendar.DaysBeforeYearStep | shared_types.py:40 | the ordinal of 1 January advances by 366 over a leap year and by 365 otherwise |
| Calendar.NextDayOrdinal | shared_types.py:40 | one calendar step adds exactly one to `toordinal`, i.e. it is `+ timedelta(days=1)` |
| Calendar.OrdinalOrder | shared_types.py:38 | on valid dates, `<=` on dates is `<=` on ordinals, and equal ordinals mean equal dates |
| Calendar.NextDayNoSkip | shared_types.py:38-40 | stepping from a date before the end gate never passes the end gate |
| Text.Find | game_data.py:56 | `-1` exactly when the needle does not occur, otherwise the lowest index where it occurs |
| Text.Lower | game_data.py:58 | same length, every character lowered |
| SharedTypes.ScheduledGame | shared_types.py:15-20 | a game built from date and teams has both scores 0 and carries exactly that date and those teams |
| SharedTypes.GameEqualityIsFieldwise | shared_types.py:15-20 | two games are equal exactly when all five fields are equal |
| SharedTypes.Season.constructor | shared_types.py:25-26 | the season stores its starting year |
| SharedTypes.Season.GetAllDates | shared_types.py:28-40 | fails with `DateOutOfRange` exactly when 1 October of `year` or 30 April of `year+1` is not a `datetime.date`; otherwise it yields `year*10000+1001` first and `(year+1)*10000+430` last, every value a valid date and each the next day of the one before |
| SharedTypes.SeasonWalkOrdinal | shared_types.py:38-40 | the i-th value of the walk is the date i days after 1 October |
| SharedTypes.SeasonWalkLength | shared_types.py:35-40 | the walk has 212 values, or 213 when `year+1` is a leap year |
| SharedTypes.SeasonWalkInSeason | shared_types.py:28-36 | every value is a date in October–December of `year` or January–April of `year+1`, between the two gates |
| SharedTypes.SeasonWalkIncreasing | shared_types.py:38-40 | the values are strictly increasing |
| SharedTypes.SeasonWalkUnique | shared_types.py:28-40 | the walk is determined by the year |
| Cache.StripSlashes | cache.py:10 | the result has no "/", is no longer than the input, and is the input itself when it has no "/" |
| Cache.StripSlashesAppend | cache.py:10 | removing slashes distributes over concatenation |
| Cache.TransformKey | cache.py:8-10 | the path is the data directory joined with the key, with every "/" removed, plus ".data"; the file-name part holds no "/" |
| Cache.TransformKeyCollision | cache.py:8-10 | two keys get the same path exactly when they agree once slashes are removed |
| Cache.SlashOnlyKeysCollide | cache.py:10 | "a/b" and "ab" share one cache file |
| Cache.TryToRead | cache.py:25-43 | the read is `Lookup`: `NoCacher` always misses; `BasicCacher` misses when no file is at the transformed key and otherwise returns its content |
| Cache.Write | cache.py:31-49 | the new store is `Stored`: `NoCacher` leaves the store unchanged; `BasicCacher` overwrites the file at the transformed key and changes nothing else |
| Cache.Memoize | cache.py:52-64 | on a non-None cached value: that value, no call, no write; otherwise one call: a returned result is written under the key and returned, a raised exception propagates and nothing is written |
| Cache.ReadAfterWrite | cache.py:38-49 | with `BasicCacher`, a read after `write(k, v)` returns `v` |
| Cache.WriteVisibility | cache.py:38-49 | with `BasicCacher`, a write is seen by exactly the keys equal to it without slashes; every other key reads what it read before |
| Cache.NoCacherInert | cache.py:25-32 | `NoCacher` never serves a value and its writes change nothing |
| Cache.MemoizeSecondCallHits | cache.py:52-64 | with `BasicCacher`, after a call that produced a non-None value, the next call under the key returns it without running any function |
| Cache.MemoizeNoneRecomputes | cache.py:55-60 | a function returning `None` runs again on the next call |
| Cache.MemoizeFailureNotCached | cache.py:55-60 | a function that raises leaves the store as it was, so the next call under the key runs a function again |
| Cache.MemoizeNoCacherAlwaysComputes | cache.py:52-64 | with `NoCacher` every call runs the function and leaves the store alone |
| GameData.Classify | game_data.py:55-61 | goal exactly when "GOAL" occurs (case-sensitive); face-off exactly when it does not and "faceoff" occurs case-insensitively; shot exactly when neither does and "shot" does; never end-of-period |
| GameData.GoalBeatsShot | game_data.py:56-61 | a description with both "GOAL" and "shot" is a goal |
| GameData.LoadGameDataOnline | game_data.py:12-74 | the result is the scan's play list reversed, same length, the k-th play being the (n-1-k)-th scanned play with its period moved by `1 - period` |
| GameData.ReverseShiftedAt | game_data.py:69-72 | reversing with a shift keeps every play at the mirrored index and adds none |
| GameData.ScanCounter | game_data.py:30-43 | after the scan the counter is minus the number of "End of " rows, and the scan has started exactly when there is one |
| GameData.ScanWithoutMarkers | game_data.py:30-51 | a page without "End of " rows leaves the scanner in its initial state |
| GameData.ParseWithoutMarkers | game_data.py:30-51 | a page without "End of " rows yields no play |
| GameData.ParseIgnoresPreamble | game_data.py:30-51 | rows before the first "End of " row can be removed without changing the result |
| GameData.ScanPeriods | game_data.py:32-53 | in scan order every play lies in periods -N..-1 and periods never increase |
| GameData.ParsePeriods | game_data.py:42-72 | after renumbering every play belongs to the game, lies in periods 1..N, and the list is in ascending period order |
| GameData.ScanEndOfPeriodPlays | game_data.py:41-48 | in scan order there is one end-of-period play per "End of " row, the j-th at period -(j+1), "20:00", without team |
| GameData.ParseEndOfPeriodPlays | game_data.py:41-72 | in the result the end-of-period plays are one per "End of " row with periods 1..N in order, so the first marker on the page closes period N and the last closes period 1; none has a team |
| GameData.ScanProvenance | game_data.py:50-65 | every goal, face-off or shot comes from a five-span row whose description classifies as its kind, with the team of span 2 and the clock of span 3 |
| GameData.ParseProvenance | game_data.py:50-72 | the same holds for the returned plays |
| GameData.ScanPlayCount | game_data.py:36-65 | the scan emits one play per "End of " row plus one per classified five-span row from the first marker on |
| GameData.ParsePlayCount | game_data.py:36-72 | the result has exactly that many plays: none is lost or added |
| GameData.TeamCode | game_data.py:120 | no code exactly when the link lacks "teams/" |
| GameData.TeamCodeIsSegment | game_data.py:119-123 | the code is the text after the first "teams/" up to the first "/", the next "teams/" or the end |
| GameData.ReadScheduleRow | game_data.py:115-131 | the row loop's result is the row's game: both cells linked, both links with "teams/", both codes non-empty; otherwise none |
| GameData.GetGamesForDate | game_data.py:107-133 | a missing table gives no games; otherwise each row that reads cleanly gives its game, in row order |
| GameData.ScheduleGamesAppend | game_data.py:114-131 | the games of a table are the games of its parts, concatenated |
| GameData.ScheduleSkipsFailedRow | game_data.py:114-131 | a failing row is dropped and the rows around it are kept, in order |
| GameData.ScheduleGamesWellFormed | game_data.py:114-131 | at most one game per row; every game carries the page's date, scores 0 and two non-empty codes without "/" |
| GameData.ConstructDeclaredGame | shared_types.py:15-20 | the declared constructor yields a game exactly when `date` is among the declared fields |
| GameData.RowGameAsWritten | game_data.py:114-131 | as written, no row yields a game |
| GameData.AsWrittenDropsWellFormedRow | game_data.py:127-131 | a row with links "teams/A" and "teams/B" gives the game A at B when `Game` has a date, and nothing as written |
| GameData.AppendEach | game_data.py:143-144 | appending the games one at a time appends them all, in order |
| GameData.GetSeasonGames | game_data.py:138-145 | `DateOutOfRange` exactly when the season's dates are out of range; otherwise the games of every date of the season walk, date after date |
| GameData.DateGamesDated | game_data.py:129 | every game read for a date carries that date |
| GameData.GamesOnDatesOrdered | game_data.py:139-145 | over increasing dates, every game carries one of the dates and the games come in date order |
| GameData.SeasonGamesInSeason | game_data.py:139-145 | every game of a season is dated within that season, and the list is in date order |
| GameData.SplitDataset | game_data.py:165-169 | `train + test` is the game list, and `|train| = floor(n * (1 - p))` |
| GameData.SplitTestShare | game_data.py:165-169 | the test part holds at least `ceil(n * p)` games, so it is non-empty when there are games |
| GameData.SplitTenGames | game_data.py:165-169 | ten games with `p = 0.2` give the first eight for training and the last two for testing |
| GameData.MakeDataset | game_data.py:162-169 | the test portion defaults to 1/5; a test portion outside (0, 1) is rejected before any schedule is read; otherwise the season's games, or its error, split as above |

## Left out

- Network, HTML and browser access are not modelled: `scraper_tools.py`, `read_url_to_string` and BeautifulSoup. A page is given as the content the parser would extract.
- `pickle`, `os.path.exists` and `open` are not modelled. The file system is the `FileStore` map, and a file holds the value it was written with. A corrupt file (an unpickling error) is not modelled.
- `print` is not modelled.
- `functools.lru_cache` on `load_game_data` and the `multipledispatch` overloading are not modelled. The two `get_games` overloads are `GetGamesForDate` and `GetSeasonGames`.
- `load_game_data` (game_data.py:81-92) and `get_games_data` (game_data.py:148-159) are not modelled. They only wire `memoize` around the scanner and iterate `load_game_data`.
- The `memoize`/`BasicCacher` wiring around the schedule scan (game_data.py:101-102, 135) is not modelled. `GetSeasonGames` takes every date's table as its input.
- `HockeyTime.from_str` is not modelled: its source is not shown. A time stores the period and the clock text as read, and a malformed clock cannot fail.
- `Play`, `HockeyTime`, `TrainTest` and a structured `GameData` are not defined in any file of the project (shared_types.py has `GameData = str`), and `List` is never imported. Their fields here are the ones game_data.py uses. As written, importing game_data.py raises NameError, because the return annotations at game_data.py:96, 139 and 162 are evaluated when each `def` runs; the model reads the module as if those names were defined.
- The in-place update of `play.hockey_time.period` in the second loop of `_load_game_data_online` is modelled on values: each returned play is a shifted copy. Each play gets its own `from_str` result; assuming that is a fresh object, no aliasing is lost (were `from_str` to share results, the `+=` at game_data.py:71 would shift a shared time more than once).
- Text.Lower: only ASCII letters are lowered; Python's full Unicode case mapping is not modelled.
- GameData.MakeDataset: `test_portion` is the rational `testNum / testDen` with `testDen > 0`. The float rounding of `int(len(games) * (1.0 - test_portion))` is not modelled.
- Concurrency is not modelled. Two concurrent calls for the same uncached key may each fetch; the code has no single-flight guard. The model follows the code.
- `BasicCacher.write` overwrites an existing file, although its docstring says it writes only when the file does not exist and sets a TTL. The model follows the code: unconditional overwrite, no expiry.
- Calendar.NextDay: stepping past 31 December 9999 (Python's OverflowError) is not modelled as an error. The season walk never gets there: a season whose end gate is beyond year 9999 fails earlier with `DateOutOfRange`.
- `models.py`, the blog scripts and `constants.py` are not modelled. They are floating-point statistics, plotting and a static team list.

## Findings

| source | as written | input that shows it | evidently intended | confidence | as-written member | corrected member |
|---|---|---|---|---|---|---|
| game_data.py:129 | `Game(date=date, away=..., home=...)` passes a `date` keyword. The `Game` of shared_types.py:16-20 declares no such field, so the attrs constructor raises TypeError. The bare `except` at game_data.py:130-131 swallows it and every schedule row is dropped. game_data.py:22 reads `game.date` too. | a table with one row whose cells link to "teams/A" and "teams/B" | `Game` has an optional `date` field; the row yields the game A at B on that date | not executed; high | GameData.RowGameAsWritten, GameData.AsWrittenDropsWellFormedRow | GameData.ReadScheduleRow, GameData.ScheduleGamesWellFormed |
