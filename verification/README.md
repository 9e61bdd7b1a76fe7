# Steam Game Playtime Tracker — a verified model of its core

The tracker scans a Steam installation for installed games and maps every game
executable to its game. It then polls the process list every couple of
seconds, so it sees each game start and stop. Each finished session is added to
a JSON document `data/playtime.json`, shaped date → game name →
`{"total", "last_open", "last_close"}`. The main window and the tray icon read
that document back to show today's and this week's playtime.

The model has seven modules in eight files:

- `common.dfy` (`Common`): `Option` and the Python `str` helpers the source
  uses (`lower`, `startswith`, `endswith`, `replace`). It also models the
  insertion-ordered Python `dict` as `Dict<V> = seq<(string, V)>`, with
  lookup, overwrite and removal.
- `json_doc.dfy` (`JsonDoc`): JSON values (objects keep their key order) and
  the data file's states. Those states are missing, unreadable, not UTF-8,
  not JSON, JSON only once `str.strip()` has removed non-JSON whitespace
  around it (which only the tray does), or parsed. The module also gives the watcher's `_load` and `_save`
  as functions of that state.
- `utils.dfy` (`Utils`): `format_playtime`, with a reader that parses its
  output back. Proving that round trip shows the formatter is injective.
- `game_scanner.dfy` (`GameScanner`): `EXE_BLACKLIST`, the two manifest
  patterns (as a hand-written matcher for `"key"\s+"(.+)"`), `parse_acf` as a
  loop over the manifest's lines, and `scan_steam_games` as a loop over the
  steamapps listing. Both loops are proved against fold functions whose
  properties are proved separately.
- `process_watcher.dfy` (`Watcher`): `ProcessWatcher` as a class. Its fields
  are `running` (an ordered dict from executable to start time), the data
  file, the events logged, the lines printed to the console (each event,
  plus a warning when the log callback raised on it) and the events
  delivered to the callback. `tick` and `_record` are methods proved against fold functions
  (`ScanFold`, `Replay`, `RecordEffect`). Lemmas about those functions state:
  - the state machine per executable;
  - the merge of a session into the document;
  - the key set of `running` after a tick.
- `sorting.dfy` (`Sorting`): Python's stable `sorted(..., reverse=True)` on an
  integer key. It is proved sorted, a permutation, and stable.
- `main_window.dfy` (`Ui`): the data half of `MainWindow.refresh`, as a class
  with the cache, the two labels, the table rows and the log. The per-day and
  per-record loops are methods. They are proved against folds, and the folds
  against independent sums over the document.
- `tray.dfy` (`Tray`): `get_today_ranking`.

Python exceptions that escape are modelled explicitly:
- a `crashed` flag in `Ui`;
- `ok == false` in `Watcher`;
- `None` in `Tray`.

So is Python's treatment of `bool` as an `int`: a `true` total adds 1.

In `refresh`, "this week" compares only the ISO week number of a date with the
current one, never the ISO year (main_window.py line 341). The model does the
same, and `Ui.WeekAcrossYears` shows a record from another year being counted
this week.

## Model

| member | source | states |
|---|---|---|
| Common.Lower | steam/game_scanner.py:109-117 | `str.lower()` on ASCII: same length, each letter lowered, other characters kept |
| Common.LowerIsLower | steam/process_watcher.py:121 | a lowered name holds no capital, and lowering it again changes nothing |
| Common.RemoveAllAbsent | steam/game_scanner.py:88 | `replace(pat, "")` leaves a string unchanged when some character of `pat` does not occur in it |
| Common.RemoveAllTrailing | steam/game_scanner.py:88 | `replace(".acf", "")` on `d + ".acf"` gives back `d` when `d` has no `.` |
| Common.Lookup | steam/process_watcher.py:130-147 | a dict lookup misses exactly when the key is absent, and a hit is some item's value |
| Common.Put | steam/process_watcher.py:178-191 | assigning a key: the key reads the new value, other keys read as before, the key set gains the key, and a new key is appended at the end |
| Common.PutInPlace | steam/process_watcher.py:178-191 | assigning a key already present keeps the dict's length and every key in its position |
| Common.Without | steam/process_watcher.py:147 | `pop` of a set of keys: exactly those keys are gone, and every remaining item was there before |
| JsonDoc.NumericValue | steam/process_watcher.py:189 | `+=` accepts exactly `int` and `bool` values: an `int` counts as itself, `true` as 1 and `false` as 0 |
| JsonDoc.Load | steam/process_watcher.py:73-83 | `_load` returns the parsed document, or `{}` for every file it cannot read or parse, and never raises |
| JsonDoc.Saved | steam/process_watcher.py:85-97 | `_save` has three outcomes. After a successful write the file loads as the document. When `open` fails the file is as it was. When the write fails after `open(..., "w")` has truncated the file, the file is empty or cut short and loads as `{}`; it holds bytes that are not UTF-8 exactly when the cut fell inside a multi-byte character |
| JsonDoc.Initialized | steam/process_watcher.py:47-49 | the constructor writes `{}` only when no file exists, and keeps any existing file |
| JsonDoc.InitializedIdempotent | steam/process_watcher.py:47-49 | starting twice is the same as starting once: a restart never overwrites recorded data |
| Utils.Decompose | utils/utils.py:28-31 | `hours*3600 + minutes*60 + secs == seconds`, with minutes and secs below 60 |
| Utils.NatToString | utils/utils.py:37-47 | `str(n)`: non-empty, decimal digits only, no leading zero |
| Utils.ParseNatToString | utils/utils.py:37-47 | the digits of `str(n)` read back as `n` |
| Utils.ReadGroup | utils/utils.py:34-47 | one "<n><unit>" group followed by a tail reads back as n times the unit plus the tail's value |
| Utils.ReadFormatted | utils/utils.py:1-47 | round trip: every non-negative duration is read back from its formatted text |
| Utils.ReadFormattedHours | utils/utils.py:34-38 | the "h…m[…s]" form, used when hours > 0, reads back as the duration |
| Utils.ReadFormattedMinutes | utils/utils.py:40-44 | the "…m[…s]" form, used when there are no hours but minutes > 0, reads back as the duration |
| Utils.ReadFormattedSeconds | utils/utils.py:46-47 | the "…s" form, including "0s", reads back as the duration |
| Utils.FormatInjective | utils/utils.py:1-47 | two different non-negative durations never format to the same text |
| Utils.FormatNegative | utils/utils.py:24-25 | negative input formats as "0s" |
| Utils.FormatExamples | utils/utils.py:11-14 | 3661 → "1h1m1s", 120 → "2m", 45 → "45s" |
| Utils.FormatEdgeExamples | utils/utils.py:15 | 7200 → "2h0m" (zero seconds omitted, zero minutes kept), 0 → "0s", -5 → "0s" |
| Utils.FormatValue | utils/utils.py:24-25 | a JSON total that is not an `int` formats as "0s"; an `int` formats as itself; `true` formats as "1s" |
| GameScanner.SpaceRun | steam/game_scanner.py:15 | `\s+` consumes exactly the maximal run of Python whitespace |
| GameScanner.LastQuote | steam/game_scanner.py:15 | the greedy `(.+)"` ends at the last quote before the line end |
| GameScanner.MatchAt | steam/game_scanner.py:15-17 | soundness: a match at a position has the shape `"key"`, whitespace, `"`, a non-empty capture without newline, `"` |
| GameScanner.MatchAtComplete | steam/game_scanner.py:15-17 | completeness and greed: whenever a capture of that shape sits at a position, the matcher matches there, and its capture is at least as long |
| GameScanner.Capture | steam/game_scanner.py:41-49 | `search(line).group(1)` is None exactly when no position of the line holds a capture of the pattern's shape; when present it is non-empty and matched at some position |
| GameScanner.SearchFromSpec | steam/game_scanner.py:41-49 | searching from a position finds nothing only when no later position holds a capture of the pattern's shape; a hit is the match at a position before which none does |
| GameScanner.CaptureSpec | steam/game_scanner.py:41-49 | a capture is the greedy match at the leftmost position of the line that holds a capture of the pattern's shape |
| GameScanner.CaptureManifestLine | steam/game_scanner.py:15-17 | on a Steam-style manifest line `\t"key"\t\t"value"\n` the pattern captures exactly the value |
| GameScanner.FirstCaptureNone | steam/game_scanner.py:32-33 | a field stays `None` exactly when no line matches its pattern |
| GameScanner.FirstCaptureIsEarliest | steam/game_scanner.py:40-49 | the captured field comes from the first matching line; no earlier line matches |
| GameScanner.FirstCaptureAppend | steam/game_scanner.py:38-49 | lines after the first match never change the result |
| GameScanner.ParseAcf | steam/game_scanner.py:20-51 | the loop returns, for name and installdir independently, the capture of the first line that matches |
| GameScanner.ManifestAppIdOfDigits | steam/game_scanner.py:84-88 | `appmanifest_<digits>.acf` passes the filter, and its app id is the digits |
| GameScanner.ExeKey | steam/game_scanner.py:109-117 | a file yields a key exactly when its lowered name ends in `.exe` and is not blacklisted; the key is that lowered name, so two files differing only in case share one key |
| GameScanner.AddExesUntouched | steam/game_scanner.py:106-121 | a key that no walked file produces keeps its earlier entry, or stays absent |
| GameScanner.AddExesLastWrite | steam/game_scanner.py:117 | last write wins: a key holds the name, app id and path of the last walked file that produces it |
| GameScanner.AddExesSource | steam/game_scanner.py:106-121 | every key after the walk came from the earlier catalog or from a walked file, with that file's entry |
| GameScanner.CatalogSpec | steam/game_scanner.py:54-123 | no steamapps directory gives `{}`. Otherwise `k` is a key exactly when some manifest with the right file name, a name, an installdir and an existing game directory has a walked file whose key is `k` |
| GameScanner.CatalogFromSource | steam/game_scanner.py:82-121 | last write wins: every catalog entry is produced by a listed manifest and one of its walked files, with their name, app id and path; no later file of that walk and no later manifest yields the key |
| GameScanner.CatalogKeyShape | steam/game_scanner.py:109-117 | every catalog key is lower-case, ends in `.exe` and is not blacklisted |
| GameScanner.CatalogFailureSticks | steam/game_scanner.py:92 | a manifest whose `open` raises ends the scan: later entries change nothing |
| GameScanner.ScanSteamGames | steam/game_scanner.py:54-123 | the loop over the listing returns the catalog described by `CatalogSpec`, or the manifest whose read raised |
| Watcher.ExeName | steam/process_watcher.py:121 | `Path(exe).name.lower()` is lower-case and holds no path separator |
| Watcher.LastComponent | steam/process_watcher.py:121 | the last path component is a separator-free suffix of the path, preceded by a separator unless it is the whole path |
| Watcher.ExeOf | steam/process_watcher.py:109-127 | only a process that was read, with a non-empty executable path, yields a name |
| Watcher.Matched | steam/process_watcher.py:105-131 | `now_running` holds only catalog keys |
| Watcher.MatchedSnoc | steam/process_watcher.py:130-131 | each process adds its name to `now_running` exactly when the name is a catalog key |
| Watcher.Deliver | steam/process_watcher.py:56-70 | the callback receives only logged events, and none when there is no callback |
| Watcher.Printed | steam/process_watcher.py:61-70 | the console shows one line per logged event, and at most one warning after each |
| Watcher.PrintedAppend | steam/process_watcher.py:62-70 | each event prints its line, followed by a callback warning exactly when the callback raised on it |
| Watcher.PrintedDelivered | steam/process_watcher.py:64-70 | with a callback, every logged event is either delivered or followed by a warning on the console, never both |
| Watcher.DeliverAppend | steam/process_watcher.py:64-70 | each event reaches the callback exactly when there is one and it does not raise |
| Watcher.Elapsed | steam/process_watcher.py:148 | `int(now - start)` truncates toward zero, also for a negative difference |
| Watcher.Vanishing | steam/process_watcher.py:145-146 | the sessions that end are running entries whose executable was not seen |
| Watcher.VanishingMembers | steam/process_watcher.py:145-146 | every running entry not seen ends |
| Watcher.VanishingKeys | steam/process_watcher.py:145-146 | the executables that end are exactly the running ones not seen |
| Watcher.StampedFields | steam/process_watcher.py:189-191 | the record reads the new total and both timestamps, and every other field as before |
| Watcher.MergeSessionFails | steam/process_watcher.py:178-189 | `setdefault` and `+=` raise exactly on a malformed document |
| Watcher.MergeSessionSpec | steam/process_watcher.py:174-194 | the merge adds the date key, keeps other dates and other games, gives the record `total + duration` and both timestamps (a new record starts at 0), and keeps the record's other fields |
| Watcher.MergeSessionTotal | steam/process_watcher.py:178-191 | the merged record's total is the old total plus the duration, and the document accepts the next merge |
| Watcher.RecordFieldsOther | steam/process_watcher.py:179-186 | outside the three written fields, the `setdefault` record reads like the stored one |
| Watcher.RecordEffectSpec | steam/process_watcher.py:152-194 | `_record` returns normally exactly when the loaded document is mergeable. A raise or a failed `open` leaves the file unchanged. A write that fails after truncation leaves a file that loads as `{}`. A successful write leaves a parsed document |
| Watcher.RecordEffectLogsFirst | steam/process_watcher.py:169-171 | `_record` logs the session's game and duration before it loads |
| Watcher.RecordEffectWrites | steam/process_watcher.py:174-194 | a successful `_record` saves the merged document |
| Watcher.SameNameAccumulates | steam/process_watcher.py:160 | two executables with one display name add both sessions into the same day's record |
| Watcher.Replay | steam/process_watcher.py:145-149 | the stop loop pops at most the ended sessions, and all of them when every `_record` returns; when every `_save` fails to open, the file is unchanged |
| Watcher.ReplayFailSticks | steam/process_watcher.py:147-149 | once a `_record` raises, the rest of the stop loop does not run |
| Watcher.ScanSeen | steam/process_watcher.py:105-131 | the scan's `now_running` is exactly the matched catalog names |
| Watcher.ScanKeys | steam/process_watcher.py:130-135 | after the scan, `running` holds the old keys plus the seen ones, each once |
| Watcher.ScanAppends | steam/process_watcher.py:134-135 | the scan keeps existing entries and their start times, and appends new executables stamped `now` |
| Watcher.ScanStartsOnce | steam/process_watcher.py:134-142 | a start is logged only for an executable not running before the tick, and at most once per tick |
| Watcher.ScanInCatalog | steam/process_watcher.py:130-135 | `running` holds only catalog keys after the scan |
| Watcher.InCatalogKeys | steam/process_watcher.py:41 | the catalog invariant is `running.keys() ⊆ games.keys()` |
| Watcher.StillRunningKeepsStart | steam/process_watcher.py:134-135 | an executable still seen keeps its original start time across the tick |
| Watcher.StopAllLeavesSeen | steam/process_watcher.py:145-149 | after every ended session is popped, `running` holds exactly the seen executables |
| Watcher.StopStep | steam/process_watcher.py:146-147 | popping an ended entry yields its start time and removes just that key |
| Watcher.ProcessWatcher.constructor | steam/process_watcher.py:25-53 | no session running, the file created only when missing, three start-up lines logged |
| Watcher.ProcessWatcher.LogStartup | steam/process_watcher.py:51-53 | the three start-up lines are logged in order |
| Watcher.ProcessWatcher.Log | steam/process_watcher.py:56-70 | the console always gets the line; the callback gets it unless it raises, and then the console gets a warning after the line; nothing else changes |
| Watcher.ProcessWatcher.LoadDoc | steam/process_watcher.py:73-83 | returns `Load(file)` and logs a warning exactly when the file yields no document |
| Watcher.ProcessWatcher.Save | steam/process_watcher.py:85-97 | the file becomes `Saved(file, doc, save)` for the write's outcome; a failed `open` or write is logged |
| Watcher.ProcessWatcher.Record | steam/process_watcher.py:152-194 | file, outcome and log are those of `RecordEffect` for the game's display name; `running` is unchanged |
| Watcher.ProcessWatcher.ScanProcs | steam/process_watcher.py:105-142 | the scan loop yields `ScanFold`'s seen set, running dict and start lines |
| Watcher.ProcessWatcher.Stop | steam/process_watcher.py:147-149 | pops one executable and records its session with `int(now - start)` seconds, under its own `_save` outcome |
| Watcher.ProcessWatcher.StopVanished | steam/process_watcher.py:145-149 | the stop loop over a snapshot of `running` records the ended sessions in order, each under its own `_save` outcome, and pops exactly those recorded before any raise |
| Watcher.ProcessWatcher.Tick | steam/process_watcher.py:100-149 | `tick` is the scan then the stop loop; when it completes, the keys of `running` are exactly the matched catalog names |
| Sorting.SortDescSpec | ui/main_window.py:353 | `sorted(..., reverse=True)` is non-increasing in the key, a permutation, and keeps items with equal keys in their original order |
| Sorting.SortDescSorted | tray.py:50 | sorting an already non-increasing list changes nothing |
| Ui.RecordStepTotals | ui/main_window.py:310-343 | one record adds its total to today's and this week's counters by its date, and logs a skipped record |
| Ui.RecordStepGame | ui/main_window.py:324-343 | one record adds its total to its own game's total, today and week, and to no other game |
| Ui.RecordStepFirstSeen | ui/main_window.py:324-330 | a game is created from its first record's timestamps, and later records keep them |
| Ui.DayFoldTotals | ui/main_window.py:310-343 | after one day, the counters grow by that day's sum of totals |
| Ui.DayFoldGame | ui/main_window.py:310-343 | after one day, a game's three sums grow by that day's records of that game |
| Ui.DayFoldRaises | ui/main_window.py:313-333 | the day's loop raises exactly when some record is an object whose "total" is not a number |
| Ui.DocFoldTotals | ui/main_window.py:300-343 | `today_total` and `week_total` equal independent sums over today's and this week's well-formed records |
| Ui.DocFoldGame | ui/main_window.py:324-343 | each game's total, today and week equal independent sums of its well-formed records |
| Ui.DocFoldFirstSeen | ui/main_window.py:324-330 | a game is in the cache exactly when it has a well-formed record, with the timestamps of the first one |
| Ui.DocFoldRaises | ui/main_window.py:300-333 | the loop raises exactly when some date's bucket is an object and either `strptime` rejects the date key or the bucket holds a record whose total is not a number |
| Ui.WeekAcrossYears | ui/main_window.py:341 | a record from ISO week 1 of 2024 counts towards the week total in ISO week 1 of 2025 |
| Ui.DayFoldCrashSticks | ui/main_window.py:310-343 | once a record raises, the rest of the day changes nothing |
| Ui.DocFoldCrashSticks | ui/main_window.py:300-343 | once a date raises, the rest of the document changes nothing |
| Ui.TableSpec | ui/main_window.py:351-360 | the table lists every game once, in non-increasing order of today's time, each row holding the name and the three formatted times |
| Ui.MainWindow.AddRecord | ui/main_window.py:310-343 | one iteration of the record loop leaves the state `RecordStep` describes |
| Ui.MainWindow.AddDay | ui/main_window.py:310-343 | the record loop leaves the state `DayFold` describes |
| Ui.MainWindow.AddDate | ui/main_window.py:300-343 | one iteration of the date loop leaves the state `DateStep` describes |
| Ui.MainWindow.Tally | ui/main_window.py:295-343 | the date loop leaves the state `DocFold` describes |
| Ui.MainWindow.FillTable | ui/main_window.py:351-360 | the table becomes `Table(games)` |
| Ui.MainWindow.Refresh | ui/main_window.py:274-360 | a missing or unreadable file logs one line and changes nothing else. Otherwise the log grows by the skipped-entry lines. A raise leaves cache, labels and table as they were. Completion sets the cache, both labels and the table from the aggregation |
| Tray.RankKey | tray.py:50 | the sort key is the record's numeric total |
| Tray.RankedItemsOrder | tray.py:45-50 | the ranking holds today's records, each once, in non-increasing order of total, ties kept in file order |
| Tray.RankedItemsHasTotal | tray.py:50-52 | every ranked record is an object holding "total", so none is filtered out |
| Tray.RankedItemsComplete | tray.py:45-56 | when every record of today has a numeric total, each one is ranked |
| Tray.RankedItemsUnkeyed | tray.py:50 | one record without "total" makes the sort raise, although the loop would have skipped it |
| Tray.RankedItemsEmpty | tray.py:29-45 | a missing or unreadable file, a file that is blank or not JSON even after `strip()`, or no bucket for today, ranks nothing |
| Tray.RankedItemsAfterFailedSave | tray.py:32-40 | after a `_save` that failed part-way, the tray ranks nothing when the cut fell between characters, and raises when it fell inside one, because the decoding error is not caught |
| Tray.RankedItemsPadded | tray.py:34-37 | a document padded with whitespace that only `str.strip()` removes is ranked like the clean document, while `_load` reads `{}` from it |
| Tray.FormatEntries | tray.py:50-54 | each ranked record becomes its name and its formatted total, in order |
| Tray.GetTodayRanking | tray.py:22-56 | raises exactly when the ranking raises; otherwise returns one (name, formatted total) pair per ranked record, in ranked order |

## Left out

- Operating-system access is not modelled, only its results:
  - the process iteration of psutil is a sequence of `Proc` records;
  - the file system is a `DataFile` value and a `SteamLibrary` value;
  - the clock is integer milliseconds (`Clock`);
  - `strftime` and `fromtimestamp` are opaque functions of the clock;
  - `strptime` and `isocalendar` are the function `Calendar.isoWeekOf`.
- The clock is read once per tick in the model (`clock.ms`), and that one reading stands for every clock call in the tick:
  - `datetime.now()` for the end stamp and the date (process_watcher.py lines 164 and 175), so a session that ends across midnight shares one date here;
  - `time.time()` for each new process's start (line 135), so all starts detected in one tick share one start time here;
  - `time.time()` for each ended session's duration (line 148). In the source the k-th session's duration is read after the earlier sessions' `_record` calls (load, parse, write) and can be a second longer after truncation; here every session's duration is `Elapsed(start, clock.ms)` at the same instant.
- Text is not modelled, only the information it carries:
  - log lines are `LogEvent` and `UiEvent` values, not formatted strings;
  - `Stopped` carries the seconds, which the source shows as `format_playtime(seconds)`;
  - the data file's path in the start-up message is not modelled.
- JSON floats are not modelled. A float total is rejected as if it were a string, whereas Python would add it. Duplicate JSON object keys are not modelled either.
- Tray.RankedItems treats a sort over two or more records as raising whenever some total is not a number. Python sorts without raising when all totals are strings, or all are lists, since those compare among themselves; the ranking is then reported as raising here instead of listing them as "0s". The warning `get_today_ranking` prints when reading or parsing fails (tray.py line 39) is not modelled.
- The `re` engine is not modelled: the two manifest patterns are a hand-written matcher. It is proved to find nothing exactly when no position holds a `GameScanner.CaptureShape`, and otherwise to match at the leftmost such position with the longest capture, which is what `re.search` does for these two patterns. A manifest's lines are given as already decoded, so the `errors="ignore"` decoding is not modelled.
- GameScanner.MatchAt: its own ensures states soundness only. Completeness and greed (a capture of the shape at the position means a match there, at least as long) are stated by the lemma `GameScanner.MatchAtComplete`, because stating them inside the function's contract makes every proof that unfolds the matcher too costly.
- `mkdir` of the data directory is not modelled (process_watcher.py line 46).
- Watcher.ProcessWatcher.constructor: `write_text("{}")` at process_watcher.py lines 47-49 is outside any `try`, so a failure there raises out of `__init__`. The model always creates the file.
- Common.Lower lowers ASCII letters only, so ExeKey and ExeName (and with them every catalog and `running` key) differ from Python's `str.lower()` on other letters. Python lowers `É` to `é`, and lowers `İ` to two characters; the model keeps both unchanged.
- The `_save` outcome of each `_record` is a parameter (`saves(n)` for the n-th ended session of a tick); why a write fails (a full disk, an unencodable character) is not modelled.
- The `hasattr(self, "log_view")` guards in `refresh` are not modelled; the log is assumed to exist.
- The Qt widgets are not modelled as widgets:
  - the labels are strings;
  - the table is a sequence of `Row`;
  - tooltip, tray menu and window code outside `refresh` and `get_today_ranking` are not part of this model.
- main.py's timer loop, which calls `tick` and `refresh` periodically, is not part of this model.
- `print` in `_log` is modelled as the `console` sequence of `ConsoleLine` values. The time-of-day prefix and the exception text in the callback warning are not modelled, and neither is a failure of `print` itself.
