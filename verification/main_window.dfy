/** The data half of `MainWindow.refresh` in ui/main_window.py: the data
    file is read, every day's records are summed per game, for today and
    for this week, and the window's cache, its two labels and its table
    are replaced. */
module Ui {
  import opened Common
  import opened JsonDoc
  import opened Utils
  import opened Sorting

  /** `date.isocalendar()`: the ISO year and week number. */
  datatype IsoWeek = IsoWeek(year: int, week: int)

  /** What `refresh` reads from the clock and the calendar: today's
      "%Y-%m-%d" string, the ISO week of now, and, for a date key, the
      ISO week of `strptime(date, "%Y-%m-%d")`, None when the key is not
      such a date (`strptime` raises). */
  datatype Calendar = Calendar(today: string, now: IsoWeek, isoWeekOf: string -> Option<IsoWeek>)

  /** One game's entry of the cache. */
  datatype GameStats = GameStats(today: int, week: int, total: int, lastOpen: Json, lastClose: Json)

  /** The lines `refresh` appends to the window's log. */
  datatype UiEvent =
    | DataFileNotFound
    | ReadFailed
    | InvalidDay(date: string)
    | InvalidGame(name: string)
    | MissingTotal(name: string)

  /** A row of the table: the name and the three formatted times. */
  datatype Row = Row(name: string, today: string, week: string, total: string)

  /** The aggregation's state: the two counters, the games dict, the log
      lines so far, and whether an exception has escaped. */
  datatype Agg = Agg(todayTotal: int, weekTotal: int, games: Dict<GameStats>, events: seq<UiEvent>, crashed: bool)

  const Fresh: Agg := Agg(0, 0, [], [], false)

  /** A date key counts towards this week when its ISO week number is
      the current one; the ISO year is not compared. */
  predicate InThisWeek(cal: Calendar, date: string) {
    cal.isoWeekOf(date).Some? && cal.isoWeekOf(date).value.week == cal.now.week
  }

  /** `games.setdefault(name, ...)` followed by the `+=` steps: the
      game's entry, created from the record's timestamps on first sight,
      grows by `v` seconds in total, `t` today and `w` this week. */
  function Credited(games: Dict<GameStats>, name: string, info: Json, t: int, w: int, v: int): Dict<GameStats>
    requires info.JObj?
  {
    var g := GetOr(games, name, GameStats(0, 0, 0, FieldOr(info.fields, "last_open"), FieldOr(info.fields, "last_close")));
    Put(games, name, g.(today := g.today + t, week := g.week + w, total := g.total + v))
  }

  /** The inner loop's body for the record `info` of game `name`: a
      record that is not an object, or holds no "total", is logged and
      skipped; a total that is not a number makes `+=` raise; otherwise
      the game's entry is created on first sight (with that record's
      timestamps) and the total is added to the game and, by date, to
      the counters. */
  function RecordStep(acc: Agg, cal: Calendar, date: string, inWeek: bool, name: string, info: Json): Agg {
    if !info.JObj? then acc.(events := acc.events + [InvalidGame(name)])
    else if !HasTotal(info) then acc.(events := acc.events + [MissingTotal(name)])
    else match NumericValue(TotalField(info))
      case None => acc.(crashed := true)
      case Some(v) =>
        var t := if date == cal.today then v else 0;
        var w := if inWeek then v else 0;
        acc.(todayTotal := acc.todayTotal + t, weekTotal := acc.weekTotal + w,
             games := Credited(acc.games, name, info, t, w, v))
  }

  /** The inner loop over one day's records, stopping at an exception. */
  function DayFold(acc: Agg, cal: Calendar, date: string, inWeek: bool, bucket: Dict<Json>): Agg {
    if bucket == [] then acc
    else
      var prev := DayFold(acc, cal, date, inWeek, bucket[..|bucket| - 1]);
      if prev.crashed then prev
      else RecordStep(prev, cal, date, inWeek, bucket[|bucket| - 1].0, bucket[|bucket| - 1].1)
  }

  /** The outer loop's body for the entry (date, daily): a bucket that
      is not an object is logged and skipped; a date key `strptime`
      rejects raises; otherwise the day's records are added. */
  function DateStep(acc: Agg, cal: Calendar, date: string, daily: Json): Agg {
    if !daily.JObj? then acc.(events := acc.events + [InvalidDay(date)])
    else if cal.isoWeekOf(date).None? then acc.(crashed := true)
    else DayFold(acc, cal, date, InThisWeek(cal, date), daily.fields)
  }

  /** The outer loop over the document's dates, stopping at an
      exception. */
  function DocFold(cal: Calendar, fields: Dict<Json>): Agg {
    if fields == [] then Fresh
    else
      var prev := DocFold(cal, fields[..|fields| - 1]);
      if prev.crashed then prev
      else DateStep(prev, cal, fields[|fields| - 1].0, fields[|fields| - 1].1)
  }

  /** The aggregation of a parsed document; `data.items()` raises on a
      document that is not an object. */
  function Aggregate(doc: Json, cal: Calendar): Agg {
    if doc.JObj? then DocFold(cal, doc.fields) else Fresh.(crashed := true)
  }

  // ---------------------------------------------------------------------
  // Reference sums, independent of the loops' dict of games
  // ---------------------------------------------------------------------

  /** Which records a sum takes: all, today's, or this week's. */
  datatype Span = AllTime | Today | ThisWeek

  predicate InSpan(cal: Calendar, date: string, span: Span) {
    match span
    case AllTime => true
    case Today => date == cal.today
    case ThisWeek => InThisWeek(cal, date)
  }

  /** The seconds a record adds: its numeric total, 0 for a record that
      is skipped. */
  function Contribution(info: Json): int {
    if HasTotal(info) && NumericValue(TotalField(info)).Some? then NumericValue(TotalField(info)).value else 0
  }

  /** The sum over the records of one bucket, of all games or of one. */
  function BucketSum(bucket: Dict<Json>, game: Option<string>): int {
    if bucket == [] then 0
    else
      var last := bucket[|bucket| - 1];
      BucketSum(bucket[..|bucket| - 1], game) + (if game.None? || last.0 == game.value then Contribution(last.1) else 0)
  }

  /** The sum over the records of every bucket in the span. */
  function DocSum(cal: Calendar, fields: Dict<Json>, span: Span, game: Option<string>): int {
    if fields == [] then 0
    else
      var last := fields[|fields| - 1];
      DocSum(cal, fields[..|fields| - 1], span, game) +
      (if last.1.JObj? && InSpan(cal, last.0, span) then BucketSum(last.1.fields, game) else 0)
  }

  /** The first record of `game` in a bucket that holds "total". */
  function FirstIn(bucket: Dict<Json>, game: string): (r: Option<Json>)
    ensures r.Some? ==> HasTotal(r.value)
  {
    if bucket == [] then None
    else
      var prev := FirstIn(bucket[..|bucket| - 1], game);
      var last := bucket[|bucket| - 1];
      if prev.Some? then prev
      else if last.0 == game && HasTotal(last.1) then Some(last.1)
      else None
  }

  /** The first record of `game` in the document, in file order, that
      holds "total". */
  function FirstRecord(fields: Dict<Json>, game: string): (r: Option<Json>)
    ensures r.Some? ==> HasTotal(r.value)
  {
    if fields == [] then None
    else
      var prev := FirstRecord(fields[..|fields| - 1], game);
      var last := fields[|fields| - 1];
      if prev.Some? then prev
      else if last.1.JObj? then FirstIn(last.1.fields, game)
      else None
  }

  /** A game's cache entry, reading an absent game as zero seconds. */
  function StatOr(games: Dict<GameStats>, game: string): GameStats {
    GetOr(games, game, GameStats(0, 0, 0, JNull, JNull))
  }

  // ---------------------------------------------------------------------
  // What the loops compute
  // ---------------------------------------------------------------------

  /** One record adds its contribution to the counters. */
  lemma RecordStepTotals(acc: Agg, cal: Calendar, date: string, inWeek: bool, name: string, info: Json)
    requires !RecordStep(acc, cal, date, inWeek, name, info).crashed
    ensures RecordStep(acc, cal, date, inWeek, name, info).todayTotal ==
      acc.todayTotal + (if date == cal.today then Contribution(info) else 0)
    ensures RecordStep(acc, cal, date, inWeek, name, info).weekTotal ==
      acc.weekTotal + (if inWeek then Contribution(info) else 0)
    ensures RecordStep(acc, cal, date, inWeek, name, info).events ==
      acc.events + (if !info.JObj? then [InvalidGame(name)] else if !HasTotal(info) then [MissingTotal(name)] else [])
  {
  }

  /** One record adds its contribution to its own game only; the game's
      entry appears with the record's timestamps and keeps them. */
  lemma RecordStepGame(acc: Agg, cal: Calendar, date: string, inWeek: bool, name: string, info: Json, game: string)
    requires !RecordStep(acc, cal, date, inWeek, name, info).crashed
    ensures var r := RecordStep(acc, cal, date, inWeek, name, info);
      var c := if name == game then Contribution(info) else 0;
      && StatOr(r.games, game).total == StatOr(acc.games, game).total + c
      && StatOr(r.games, game).today == StatOr(acc.games, game).today + (if date == cal.today then c else 0)
      && StatOr(r.games, game).week == StatOr(acc.games, game).week + (if inWeek then c else 0)
  {
  }

  /** The game's entry exists once a record of it with a total was seen,
      and its timestamps are those of the first such record. */
  lemma RecordStepFirstSeen(acc: Agg, cal: Calendar, date: string, inWeek: bool, name: string, info: Json, game: string)
    requires !RecordStep(acc, cal, date, inWeek, name, info).crashed
    ensures var r := RecordStep(acc, cal, date, inWeek, name, info);
      && (game in KeysOf(r.games) <==> game in KeysOf(acc.games) || (name == game && HasTotal(info)))
      && (game in KeysOf(acc.games) ==>
            Lookup(r.games, game).value.lastOpen == Lookup(acc.games, game).value.lastOpen &&
            Lookup(r.games, game).value.lastClose == Lookup(acc.games, game).value.lastClose)
      && (game !in KeysOf(acc.games) && name == game && HasTotal(info) ==>
            Lookup(r.games, game).value.lastOpen == FieldOr(info.fields, "last_open") &&
            Lookup(r.games, game).value.lastClose == FieldOr(info.fields, "last_close"))
  {
  }

  /** The counters grow by the day's records. */
  lemma {:induction false} DayFoldTotals(acc: Agg, cal: Calendar, date: string, inWeek: bool, bucket: Dict<Json>)
    requires !DayFold(acc, cal, date, inWeek, bucket).crashed
    ensures DayFold(acc, cal, date, inWeek, bucket).todayTotal ==
      acc.todayTotal + (if date == cal.today then BucketSum(bucket, None) else 0)
    ensures DayFold(acc, cal, date, inWeek, bucket).weekTotal ==
      acc.weekTotal + (if inWeek then BucketSum(bucket, None) else 0)
  {
    if bucket != [] {
      var init := bucket[..|bucket| - 1];
      var last := bucket[|bucket| - 1];
      var prev := DayFold(acc, cal, date, inWeek, init);
      DayFoldTotals(acc, cal, date, inWeek, init);
      RecordStepTotals(prev, cal, date, inWeek, last.0, last.1);
    }
  }

  /** A game's entry grows by the day's records of that game. */
  lemma {:induction false} DayFoldGame(acc: Agg, cal: Calendar, date: string, inWeek: bool, bucket: Dict<Json>, game: string)
    requires !DayFold(acc, cal, date, inWeek, bucket).crashed
    ensures var r := DayFold(acc, cal, date, inWeek, bucket);
      var c := BucketSum(bucket, Some(game));
      && StatOr(r.games, game).total == StatOr(acc.games, game).total + c
      && StatOr(r.games, game).today == StatOr(acc.games, game).today + (if date == cal.today then c else 0)
      && StatOr(r.games, game).week == StatOr(acc.games, game).week + (if inWeek then c else 0)
  {
    if bucket != [] {
      var init := bucket[..|bucket| - 1];
      var last := bucket[|bucket| - 1];
      var prev := DayFold(acc, cal, date, inWeek, init);
      DayFoldGame(acc, cal, date, inWeek, init, game);
      RecordStepGame(prev, cal, date, inWeek, last.0, last.1, game);
    }
  }

  /** A game's entry exists after the day exactly when it did before or
      the day has a record of it with a total; an existing entry keeps
      its timestamps, and a new one takes the first such record's. */
  lemma {:induction false} DayFoldFirstSeen(acc: Agg, cal: Calendar, date: string, inWeek: bool, bucket: Dict<Json>, game: string)
    requires !DayFold(acc, cal, date, inWeek, bucket).crashed
    ensures var r := DayFold(acc, cal, date, inWeek, bucket);
      && (game in KeysOf(r.games) <==> game in KeysOf(acc.games) || FirstIn(bucket, game).Some?)
      && (game in KeysOf(acc.games) ==>
            Lookup(r.games, game).value.lastOpen == Lookup(acc.games, game).value.lastOpen &&
            Lookup(r.games, game).value.lastClose == Lookup(acc.games, game).value.lastClose)
      && (game !in KeysOf(acc.games) && FirstIn(bucket, game).Some? ==>
            Lookup(r.games, game).value.lastOpen == FieldOr(FirstIn(bucket, game).value.fields, "last_open") &&
            Lookup(r.games, game).value.lastClose == FieldOr(FirstIn(bucket, game).value.fields, "last_close"))
  {
    if bucket != [] {
      var init := bucket[..|bucket| - 1];
      var last := bucket[|bucket| - 1];
      var prev := DayFold(acc, cal, date, inWeek, init);
      DayFoldFirstSeen(acc, cal, date, inWeek, init, game);
      RecordStepFirstSeen(prev, cal, date, inWeek, last.0, last.1, game);
    }
  }

  /** A record whose total `+=` cannot add. */
  predicate BadRecord(info: Json) {
    HasTotal(info) && NumericValue(TotalField(info)).None?
  }

  /** The inner loop raises exactly when the day holds a record with a
      total that is not a number. */
  lemma {:induction false} DayFoldRaises(acc: Agg, cal: Calendar, date: string, inWeek: bool, bucket: Dict<Json>)
    requires !acc.crashed
    ensures DayFold(acc, cal, date, inWeek, bucket).crashed <==>
      exists j :: 0 <= j < |bucket| && BadRecord(bucket[j].1)
  {
    if bucket != [] {
      var init := bucket[..|bucket| - 1];
      var last := bucket[|bucket| - 1];
      DayFoldRaises(acc, cal, date, inWeek, init);
      if exists j :: 0 <= j < |init| && BadRecord(init[j].1) {
        var j :| 0 <= j < |init| && BadRecord(init[j].1);
        assert bucket[j] == init[j];
      } else if BadRecord(last.1) {
      } else {
        forall j | 0 <= j < |bucket| ensures !BadRecord(bucket[j].1) {
          if j < |init| {
            assert bucket[j] == init[j];
          }
        }
      }
    }
  }

  /** Today's and this week's counters are the sums of the records of
      today's date and of the dates in this ISO week. */
  lemma {:induction false} DocFoldTotals(cal: Calendar, fields: Dict<Json>)
    requires !DocFold(cal, fields).crashed
    ensures DocFold(cal, fields).todayTotal == DocSum(cal, fields, Today, None)
    ensures DocFold(cal, fields).weekTotal == DocSum(cal, fields, ThisWeek, None)
  {
    if fields != [] {
      var init := fields[..|fields| - 1];
      var last := fields[|fields| - 1];
      var prev := DocFold(cal, init);
      DocFoldTotals(cal, init);
      if last.1.JObj? {
        DayFoldTotals(prev, cal, last.0, InThisWeek(cal, last.0), last.1.fields);
      }
    }
  }

  /** Each game's entry sums that game's records: over all dates, over
      today's, and over this week's. */
  lemma {:induction false} DocFoldGame(cal: Calendar, fields: Dict<Json>, game: string)
    requires !DocFold(cal, fields).crashed
    ensures StatOr(DocFold(cal, fields).games, game).total == DocSum(cal, fields, AllTime, Some(game))
    ensures StatOr(DocFold(cal, fields).games, game).today == DocSum(cal, fields, Today, Some(game))
    ensures StatOr(DocFold(cal, fields).games, game).week == DocSum(cal, fields, ThisWeek, Some(game))
  {
    if fields != [] {
      var init := fields[..|fields| - 1];
      var last := fields[|fields| - 1];
      var prev := DocFold(cal, init);
      DocFoldGame(cal, init, game);
      if last.1.JObj? {
        DayFoldGame(prev, cal, last.0, InThisWeek(cal, last.0), last.1.fields, game);
      }
    }
  }

  /** A game has an entry exactly when the document has a record of it
      holding "total", and the entry's timestamps are those of the first
      such record in file order. */
  lemma {:induction false} DocFoldFirstSeen(cal: Calendar, fields: Dict<Json>, game: string)
    requires !DocFold(cal, fields).crashed
    ensures game in KeysOf(DocFold(cal, fields).games) <==> FirstRecord(fields, game).Some?
    ensures FirstRecord(fields, game).Some? ==>
      Lookup(DocFold(cal, fields).games, game).value.lastOpen == FieldOr(FirstRecord(fields, game).value.fields, "last_open") &&
      Lookup(DocFold(cal, fields).games, game).value.lastClose == FieldOr(FirstRecord(fields, game).value.fields, "last_close")
  {
    if fields != [] {
      var init := fields[..|fields| - 1];
      var last := fields[|fields| - 1];
      var prev := DocFold(cal, init);
      DocFoldFirstSeen(cal, init, game);
      if last.1.JObj? {
        DayFoldFirstSeen(prev, cal, last.0, InThisWeek(cal, last.0), last.1.fields, game);
      }
    }
  }

  /** A date entry on which the outer loop raises: an object bucket
      whose date key `strptime` rejects, or that holds a total that is
      not a number. */
  predicate Breaks(cal: Calendar, entry: (string, Json)) {
    entry.1.JObj? &&
    (cal.isoWeekOf(entry.0).None? || exists j :: 0 <= j < |entry.1.fields| && BadRecord(entry.1.fields[j].1))
  }

  /** The aggregation raises exactly when some date entry breaks it. */
  lemma {:induction false} DocFoldRaises(cal: Calendar, fields: Dict<Json>)
    ensures DocFold(cal, fields).crashed <==> exists i :: 0 <= i < |fields| && Breaks(cal, fields[i])
  {
    if fields != [] {
      var init := fields[..|fields| - 1];
      var last := fields[|fields| - 1];
      var prev := DocFold(cal, init);
      DocFoldRaises(cal, init);
      if exists i :: 0 <= i < |init| && Breaks(cal, init[i]) {
        var i :| 0 <= i < |init| && Breaks(cal, init[i]);
        assert fields[i] == init[i];
      } else {
        if last.1.JObj? && cal.isoWeekOf(last.0).Some? {
          DayFoldRaises(prev, cal, last.0, InThisWeek(cal, last.0), last.1.fields);
        }
        if !Breaks(cal, last) {
          forall i | 0 <= i < |fields| ensures !Breaks(cal, fields[i]) {
            if i < |init| {
              assert fields[i] == init[i];
            }
          }
        }
      }
    }
  }

  /** A record from a past year counts as this week's when its ISO week
      number is the current one: a session in ISO week 1 of 2024 counts
      towards this week on 1 January 2025, which is in ISO week 1 of
      2025. */
  lemma WeekAcrossYears()
    ensures var cal := Calendar("2025-01-01", IsoWeek(2025, 1),
                                d => if d == "2024-01-03" then Some(IsoWeek(2024, 1)) else None);
      var doc := JObj([("2024-01-03", JObj([("Game", JObj([("total", JInt(100))]))]))]);
      && !Aggregate(doc, cal).crashed
      && Aggregate(doc, cal).weekTotal == 100
      && Aggregate(doc, cal).todayTotal == 0
  {
    var cal := Calendar("2025-01-01", IsoWeek(2025, 1),
                        d => if d == "2024-01-03" then Some(IsoWeek(2024, 1)) else None);
    var rec := JObj([("total", JInt(100))]);
    var fields := [("2024-01-03", JObj([("Game", rec)]))];
    assert fields[..0] == [];
    assert [("Game", rec)][..0] == [];
    assert HasTotal(rec);
    assert InThisWeek(cal, "2024-01-03");
  }

  /** Once the inner loop has raised, later records change nothing. */
  lemma {:induction false} DayFoldCrashSticks(acc: Agg, cal: Calendar, date: string, inWeek: bool, bucket: Dict<Json>, k: nat)
    requires k <= |bucket| && DayFold(acc, cal, date, inWeek, bucket[..k]).crashed
    ensures DayFold(acc, cal, date, inWeek, bucket) == DayFold(acc, cal, date, inWeek, bucket[..k])
    decreases |bucket| - k
  {
    if k < |bucket| {
      assert bucket[..k + 1][..k] == bucket[..k];
      DayFoldCrashSticks(acc, cal, date, inWeek, bucket, k + 1);
    } else {
      assert bucket[..k] == bucket;
    }
  }

  /** Once an entry has raised, the entries after it are never visited. */
  lemma {:induction false} DocFoldCrashSticks(cal: Calendar, fields: Dict<Json>, k: nat)
    requires k <= |fields| && DocFold(cal, fields[..k]).crashed
    ensures DocFold(cal, fields) == DocFold(cal, fields[..k])
    decreases |fields| - k
  {
    if k < |fields| {
      assert fields[..k + 1][..k] == fields[..k];
      DocFoldCrashSticks(cal, fields, k + 1);
    } else {
      assert fields[..k] == fields;
    }
  }

  // ---------------------------------------------------------------------
  // The window
  // ---------------------------------------------------------------------

  /** The order of the table: by today's seconds. */
  function TodayKey(e: (string, GameStats)): int {
    e.1.today
  }

  /** A table row shows the name and the three formatted times. */
  function RowOf(e: (string, GameStats)): Row {
    Row(e.0, FormatPlaytime(e.1.today), FormatPlaytime(e.1.week), FormatPlaytime(e.1.total))
  }

  /** The table's rows: the games by today's seconds, most first, games
      with equal seconds in the order they were first seen. */
  function Table(games: Dict<GameStats>): (rows: seq<Row>)
    ensures |rows| == |games|
  {
    var sorted := SortDesc(games, TodayKey);
    seq(|sorted|, i requires 0 <= i < |sorted| => RowOf(sorted[i]))
  }

  /** The table lists every game once, in non-increasing order of
      today's seconds, each row showing that game's three times. */
  lemma TableSpec(games: Dict<GameStats>)
    ensures var sorted := SortDesc(games, TodayKey);
      && multiset(sorted) == multiset(games)
      && (forall i, j :: 0 <= i < j < |sorted| ==> sorted[i].1.today >= sorted[j].1.today)
      && (forall i :: 0 <= i < |sorted| ==> Table(games)[i] == RowOf(sorted[i]))
  {
    SortDescSpec(games, TodayKey);
  }

  /** The part of the main window `refresh` reads and writes: the games
      cache, the two labels, the table's rows and the log view. */
  class MainWindow {
    var cache: Dict<GameStats>
    var todayLabel: string
    var weekLabel: string
    var rows: seq<Row>
    var log: seq<UiEvent>

    /** The values the loops keep agree with the aggregation state `a`:
        the log has grown by `a`'s lines, and unless `a` has raised, the
        two counters and the games dict are `a`'s. */
    ghost predicate Holds(a: Agg, ok: bool, todayTotal: int, weekTotal: int, games: Dict<GameStats>, log0: seq<UiEvent>)
      reads this
    {
      && ok == !a.crashed
      && log == log0 + a.events
      && (ok ==> todayTotal == a.todayTotal && weekTotal == a.weekTotal && games == a.games)
    }

    /** `append_log`. */
    method AppendLog(e: UiEvent)
      modifies this`log
      ensures log == old(log) + [e]
    {
      log := log + [e];
    }

    /** The inner loop's body for the record `info` of game `name`;
        `ok == false` is the exception `+=` raises on a total that is
        not a number. */
    method AddRecord(cal: Calendar, date: string, inWeek: bool, name: string, info: Json,
                     todayTotal0: int, weekTotal0: int, games0: Dict<GameStats>,
                     ghost events0: seq<UiEvent>, ghost log0: seq<UiEvent>)
      returns (ok: bool, todayTotal: int, weekTotal: int, games: Dict<GameStats>)
      requires log == log0 + events0
      modifies this`log
      ensures Holds(RecordStep(Agg(todayTotal0, weekTotal0, games0, events0, false), cal, date, inWeek, name, info),
                    ok, todayTotal, weekTotal, games, log0)
    {
      ghost var acc := Agg(todayTotal0, weekTotal0, games0, events0, false);
      todayTotal, weekTotal, games := todayTotal0, weekTotal0, games0;
      ok := true;
      if !info.JObj? {
        AppendLog(InvalidGame(name));
      } else if !HasTotal(info) {
        AppendLog(MissingTotal(name));
      } else {
        var added := NumericValue(TotalField(info));
        if added.None? {
          ok := false;
          assert RecordStep(acc, cal, date, inWeek, name, info) == acc.(crashed := true);
          return;
        }
        var v := added.value;
        var t := if date == cal.today then v else 0;
        var w := if inWeek then v else 0;
        games := Credited(games, name, info, t, w, v);
        todayTotal, weekTotal := todayTotal + t, weekTotal + w;
        assert RecordStep(acc, cal, date, inWeek, name, info) == Agg(todayTotal, weekTotal, games, events0, false);
      }
    }

    /** The inner loop of `refresh` over the records of one day, ending
        at the first exception. */
    method AddDay(cal: Calendar, date: string, inWeek: bool, bucket: Dict<Json>,
                  todayTotal0: int, weekTotal0: int, games0: Dict<GameStats>,
                  ghost events0: seq<UiEvent>, ghost log0: seq<UiEvent>)
      returns (ok: bool, todayTotal: int, weekTotal: int, games: Dict<GameStats>)
      requires log == log0 + events0
      modifies this`log
      ensures Holds(DayFold(Agg(todayTotal0, weekTotal0, games0, events0, false), cal, date, inWeek, bucket),
                    ok, todayTotal, weekTotal, games, log0)
    {
      ghost var acc := Agg(todayTotal0, weekTotal0, games0, events0, false);
      todayTotal, weekTotal, games := todayTotal0, weekTotal0, games0;
      ok := true;
      var j := 0;
      assert bucket[..0] == [];
      while j < |bucket| && ok
        invariant 0 <= j <= |bucket|
        invariant Holds(DayFold(acc, cal, date, inWeek, bucket[..j]), ok, todayTotal, weekTotal, games, log0)
      {
        ghost var prev := DayFold(acc, cal, date, inWeek, bucket[..j]);
        assert bucket[..j + 1][..j] == bucket[..j];
        assert prev == Agg(todayTotal, weekTotal, games, prev.events, false);
        ok, todayTotal, weekTotal, games := AddRecord(cal, date, inWeek, bucket[j].0, bucket[j].1,
                                                      todayTotal, weekTotal, games, prev.events, log0);
        j := j + 1;
      }
      if ok {
        assert bucket[..j] == bucket;
      } else {
        DayFoldCrashSticks(acc, cal, date, inWeek, bucket, j);
      }
    }

    /** The outer loop's body for the entry `(date, daily)`: a day that
        is not an object is logged and skipped, a key `strptime` rejects
        raises, and otherwise the day's records are added. */
    method AddDate(cal: Calendar, date: string, daily: Json,
                   todayTotal0: int, weekTotal0: int, games0: Dict<GameStats>,
                   ghost events0: seq<UiEvent>, ghost log0: seq<UiEvent>)
      returns (ok: bool, todayTotal: int, weekTotal: int, games: Dict<GameStats>)
      requires log == log0 + events0
      modifies this`log
      ensures Holds(DateStep(Agg(todayTotal0, weekTotal0, games0, events0, false), cal, date, daily),
                    ok, todayTotal, weekTotal, games, log0)
    {
      todayTotal, weekTotal, games := todayTotal0, weekTotal0, games0;
      ok := true;
      if !daily.JObj? {
        AppendLog(InvalidDay(date));
        return;
      }
      var week := cal.isoWeekOf(date);
      if week.None? {
        ok := false;
        return;
      }
      var inWeek := week.value.week == cal.now.week;
      ok, todayTotal, weekTotal, games := AddDay(cal, date, inWeek, daily.fields, todayTotal, weekTotal, games, events0, log0);
    }

    /** The outer loop of `refresh` over the document's days, ending at
        the first exception. */
    method Tally(cal: Calendar, fields: Dict<Json>)
      returns (ok: bool, todayTotal: int, weekTotal: int, games: Dict<GameStats>)
      modifies this`log
      ensures Holds(DocFold(cal, fields), ok, todayTotal, weekTotal, games, old(log))
    {
      ghost var log0 := log;
      todayTotal, weekTotal, games := 0, 0, [];
      ok := true;
      var i := 0;
      assert fields[..0] == [];
      while i < |fields| && ok
        invariant 0 <= i <= |fields|
        invariant Holds(DocFold(cal, fields[..i]), ok, todayTotal, weekTotal, games, log0)
      {
        ghost var prev := DocFold(cal, fields[..i]);
        assert fields[..i + 1][..i] == fields[..i];
        assert prev == Agg(todayTotal, weekTotal, games, prev.events, false);
        ok, todayTotal, weekTotal, games := AddDate(cal, fields[i].0, fields[i].1,
                                                    todayTotal, weekTotal, games, prev.events, log0);
        i := i + 1;
      }
      if ok {
        assert fields[..i] == fields;
      } else {
        DocFoldCrashSticks(cal, fields, i);
      }
    }

    /** Clears the table and inserts one row per game, by today's
        seconds. */
    method FillTable(games: Dict<GameStats>)
      modifies this`rows
      ensures rows == Table(games)
    {
      var sorted := SortDesc(games, TodayKey);
      rows := [];
      var i := 0;
      while i < |sorted|
        invariant 0 <= i <= |sorted|
        invariant |rows| == i
        invariant forall k :: 0 <= k < i ==> rows[k] == RowOf(sorted[k])
      {
        var (name, g) := sorted[i];
        rows := rows + [Row(name, FormatPlaytime(g.today), FormatPlaytime(g.week), FormatPlaytime(g.total))];
        i := i + 1;
      }
    }

    /** `refresh`: `completed == false` is an exception escaping, after
        which the cache, the labels and the table are as they were; the
        lines logged before it stay. */
    method Refresh(f: DataFile, cal: Calendar) returns (completed: bool)
      modifies this
      ensures f.Missing? ==> completed && log == old(log) + [DataFileNotFound]
      ensures (f.Unreadable? || f.Undecodable? || f.Unparsable? || f.Padded?) ==> completed && log == old(log) + [ReadFailed]
      ensures f.Parsed? ==> completed == !Aggregate(f.doc, cal).crashed && log == old(log) + Aggregate(f.doc, cal).events
      ensures f.Parsed? && completed ==>
        && cache == Aggregate(f.doc, cal).games
        && todayLabel == "Today's Playtime: " + FormatPlaytime(Aggregate(f.doc, cal).todayTotal)
        && weekLabel == "This Week's Playtime: " + FormatPlaytime(Aggregate(f.doc, cal).weekTotal)
        && rows == Table(Aggregate(f.doc, cal).games)
      ensures !(f.Parsed? && completed) ==>
        cache == old(cache) && todayLabel == old(todayLabel) && weekLabel == old(weekLabel) && rows == old(rows)
    {
      completed := true;
      if f.Missing? {
        AppendLog(DataFileNotFound);
        return;
      }
      if !f.Parsed? {
        AppendLog(ReadFailed);
        return;
      }
      var doc := f.doc;
      if !doc.JObj? {
        completed := false;
        return;
      }
      var ok, todayTotal, weekTotal, games := Tally(cal, doc.fields);
      if !ok {
        completed := false;
        return;
      }
      cache := games;
      todayLabel := "Today's Playtime: " + FormatPlaytime(todayTotal);
      weekLabel := "This Week's Playtime: " + FormatPlaytime(weekTotal);
      FillTable(games);
    }
  }
}
