/** The process watcher of steam/process_watcher.py: a per-executable state
    machine (absent -> running -> absent) over the `running` dict, and the
    load / merge / save cycle that adds each finished session to the
    playtime document.

    Time is an integer number of milliseconds; the process list is a
    sequence of process records; the data file is a `DataFile`. */
module Watcher {
  import opened Common
  import opened JsonDoc
  import opened Utils
  import opened GameScanner

  // ---------------------------------------------------------------------
  // Process records and executable names
  // ---------------------------------------------------------------------

  /** One entry of the process iteration. `Listed` is a process whose
      information was read (its executable path may be unavailable, which
      psutil reports as `None`); `Gone` is one that exited, was a zombie or
      denied access while being read; `Broken` is one whose inspection
      raised any other error. */
  datatype Proc =
    | Listed(pid: int, exe: Option<string>)
    | Gone
    | Broken

  predicate IsSep(c: char) { c == '\\' || c == '/' }

  /** The path without its trailing separators. */
  function StripSeps(p: string): (r: string)
    ensures |r| <= |p| && r == p[..|r|]
    ensures r == [] || !IsSep(r[|r| - 1])
    ensures forall i :: |r| <= i < |p| ==> IsSep(p[i])
  {
    if p != [] && IsSep(p[|p| - 1]) then StripSeps(p[..|p| - 1]) else p
  }

  /** The text after the last separator. */
  function LastComponent(p: string): (r: string)
    ensures |r| <= |p|
    ensures forall i :: 0 <= i < |r| ==> r[i] == p[|p| - |r| + i]
    ensures forall i :: 0 <= i < |r| ==> !IsSep(r[i])
    ensures |r| < |p| ==> IsSep(p[|p| - |r| - 1])
  {
    if p == [] || IsSep(p[|p| - 1]) then [] else LastComponent(p[..|p| - 1]) + [p[|p| - 1]]
  }

  /** `Path(p).name` for an absolute Windows path (psutil's `exe`): the
      last non-empty component. */
  function BaseName(p: string): string {
    LastComponent(StripSeps(p))
  }

  /** `Path(proc_exe).name.lower()`. */
  function ExeName(path: string): (r: string)
    ensures IsLower(r)
    ensures forall i :: 0 <= i < |r| ==> !IsSep(r[i])
  {
    LowerIsLower(BaseName(path));
    Lower(BaseName(path))
  }

  /** The lower-cased file name a process contributes, if it has an
      executable path at all. */
  function ExeOf(p: Proc): (r: Option<string>)
    ensures r.Some? ==> p.Listed? && p.exe.Some? && p.exe.value != []
  {
    if p.Listed? && p.exe.Some? && p.exe.value != [] then Some(ExeName(p.exe.value)) else None
  }

  /** The catalog names seen in a process list. */
  function Matched(procs: seq<Proc>, games: map<string, GameInfo>): (r: set<string>)
    ensures r <= games.Keys
  {
    set i | 0 <= i < |procs| && ExeOf(procs[i]).Some? && ExeOf(procs[i]).value in games :: ExeOf(procs[i]).value
  }

  lemma MatchedSnoc(procs: seq<Proc>, p: Proc, games: map<string, GameInfo>)
    ensures Matched(procs + [p], games) ==
      Matched(procs, games) + (if ExeOf(p).Some? && ExeOf(p).value in games then {ExeOf(p).value} else {})
  {
    var all := procs + [p];
    var extra := if ExeOf(p).Some? && ExeOf(p).value in games then {ExeOf(p).value} else {};
    forall n ensures n in Matched(all, games) <==> n in Matched(procs, games) + extra {
      if n in Matched(all, games) {
        var i :| 0 <= i < |all| && ExeOf(all[i]).Some? && ExeOf(all[i]).value in games && ExeOf(all[i]).value == n;
        if i < |procs| {
          assert all[i] == procs[i];
        }
      }
      if n in Matched(procs, games) {
        var i :| 0 <= i < |procs| && ExeOf(procs[i]).Some? && ExeOf(procs[i]).value in games && ExeOf(procs[i]).value == n;
        assert all[i] == procs[i];
      }
      if n in extra {
        assert all[|procs|] == p;
      }
    }
  }

  // ---------------------------------------------------------------------
  // Log events: `_log` prints each one and hands it to the callback
  // ---------------------------------------------------------------------

  datatype LogEvent =
    | WatcherReady
    | Monitoring(count: nat)
    | DataPath
    | InspectWarning
    | Started(exe: string, game: string, pid: int, path: string)
    | Stopped(exe: string, game: string, seconds: int)  // the line shows FormatPlaytime(seconds)
    | LoadWarning
    | SaveError

  /** What reaches the log callback: every event it accepts without
      raising; nothing when no callback was given. */
  function Deliver(sink: Option<LogEvent -> bool>, events: seq<LogEvent>): (r: seq<LogEvent>)
    ensures sink.None? ==> r == []
    ensures |r| <= |events|
    ensures forall e :: e in r ==> e in events
  {
    if events == [] then []
    else
      var init := Deliver(sink, events[..|events| - 1]);
      var e := events[|events| - 1];
      if sink.Some? && sink.value(e) then init + [e] else init
  }

  lemma DeliverAppend(sink: Option<LogEvent -> bool>, events: seq<LogEvent>, e: LogEvent)
    ensures Deliver(sink, events + [e]) ==
      Deliver(sink, events) + (if sink.Some? && sink.value(e) then [e] else [])
  {
    assert (events + [e])[..|events|] == events;
  }

  /** A console line: a logged event (with its time of day, which is not
      modelled), or the warning `_log` prints after the callback raised on
      that event. */
  datatype ConsoleLine = Line(event: LogEvent) | CallbackWarning(event: LogEvent)

  /** What `_log` prints for a sequence of events: each event's line,
      followed by a warning when the callback raised on it. */
  function Printed(sink: Option<LogEvent -> bool>, events: seq<LogEvent>): (r: seq<ConsoleLine>)
    ensures sink.None? ==> |r| == |events|
    ensures |events| <= |r| <= 2 * |events|
  {
    if events == [] then []
    else
      var e := events[|events| - 1];
      Printed(sink, events[..|events| - 1]) + [Line(e)] +
        (if sink.Some? && !sink.value(e) then [CallbackWarning(e)] else [])
  }

  lemma PrintedAppend(sink: Option<LogEvent -> bool>, events: seq<LogEvent>, e: LogEvent)
    ensures Printed(sink, events + [e]) ==
      Printed(sink, events) + [Line(e)] + (if sink.Some? && !sink.value(e) then [CallbackWarning(e)] else [])
  {
    assert (events + [e])[..|events|] == events;
  }

  /** With a callback, every logged event is either delivered or warned
      about on the console, never both: the console holds one line per
      event plus one warning per event the callback did not take. */
  lemma {:induction false} PrintedDelivered(sink: Option<LogEvent -> bool>, events: seq<LogEvent>)
    requires sink.Some?
    ensures |Printed(sink, events)| + |Deliver(sink, events)| == 2 * |events|
  {
    if events != [] {
      PrintedDelivered(sink, events[..|events| - 1]);
    }
  }

  // ---------------------------------------------------------------------
  // The running dict: insertion-ordered, one entry per executable
  // ---------------------------------------------------------------------

  lemma {:induction false} WithoutMore<V>(d: Dict<V>, gone: set<string>, k: string)
    ensures Without(Without(d, gone), {k}) == Without(d, gone + {k})
  {
    if d != [] {
      WithoutMore(d[1..], gone, k);
    }
  }

  lemma LookupDistinct<V>(d: Dict<V>, i: nat)
    requires DistinctKeys(d) && i < |d|
    ensures Lookup(d, d[i].0) == Some(d[i].1)
  {
    var r := Lookup(d, d[i].0);
    var j :| 0 <= j < |d| && d[j] == (d[i].0, r.value);
  }

  /** The entries whose executable was not seen this tick, in `running`
      order: the sessions that end. */
  function Vanishing(d: Dict<int>, seen: set<string>): (r: Dict<int>)
    ensures |r| <= |d|
    ensures forall e :: e in r ==> e in d && e.0 !in seen
  {
    if d == [] then []
    else
      var init := Vanishing(d[..|d| - 1], seen);
      var last := d[|d| - 1];
      assert forall e :: e in init ==> e in d;
      if last.0 in seen then init else init + [last]
  }

  /** Every entry not seen ends. */
  lemma {:induction false} VanishingMembers(d: Dict<int>, seen: set<string>)
    ensures forall e :: e in d && e.0 !in seen ==> e in Vanishing(d, seen)
  {
    if d != [] {
      var init := d[..|d| - 1];
      var last := d[|d| - 1];
      VanishingMembers(init, seen);
      assert d == init + [last];
    }
  }

  lemma {:induction false} VanishingKeys(d: Dict<int>, seen: set<string>)
    ensures KeysOf(Vanishing(d, seen)) == KeysOf(d) - seen
  {
    if d != [] {
      var init := d[..|d| - 1];
      var last := d[|d| - 1];
      assert d == init + [last];
      VanishingKeys(init, seen);
      KeysOfAppend(init, [last]);
      KeysOfAppend(Vanishing(init, seen), [last]);
    }
  }

  lemma {:induction false} VanishingDistinct(d: Dict<int>, seen: set<string>)
    requires DistinctKeys(d)
    ensures DistinctKeys(Vanishing(d, seen))
  {
    if d != [] {
      var init := d[..|d| - 1];
      var last := d[|d| - 1];
      VanishingDistinct(init, seen);
      VanishingKeys(init, seen);
      DistinctLast(d);
      DistinctSnoc(Vanishing(init, seen), last);
    }
  }

  // ---------------------------------------------------------------------
  // Time
  // ---------------------------------------------------------------------

  /** The clock readings one tick uses: the current time in milliseconds,
      the local "%Y-%m-%d %H:%M:%S" text of an instant and the local
      "%Y-%m-%d" date of an instant. */
  datatype Clock = Clock(ms: int, stamp: int -> string, day: int -> string)

  /** `int(now - start)` in whole seconds: Python's `int()` truncates
      toward zero, also when the clock went backwards. */
  function Elapsed(startMs: int, nowMs: int): (d: int)
    ensures startMs <= nowMs ==> 0 <= d && d * 1000 <= nowMs - startMs < d * 1000 + 1000
    ensures nowMs < startMs ==> d <= 0 && startMs - nowMs - 1000 < -d * 1000 <= startMs - nowMs
  {
    if startMs <= nowMs then (nowMs - startMs) / 1000 else -((startMs - nowMs) / 1000)
  }

  // ---------------------------------------------------------------------
  // The merge of one session into the document
  // ---------------------------------------------------------------------

  /** `data[date][game]`, when both levels are objects. */
  function Entry(doc: Json, date: string, game: string): Option<Json> {
    if !doc.JObj? then None
    else
      var bucket := Lookup(doc.fields, date);
      if bucket.Some? && bucket.value.JObj? then Lookup(bucket.value.fields, game) else None
  }

  /** The value of field `key` of the record at (date, game). */
  function FieldAt(doc: Json, date: string, game: string, key: string): Option<Json> {
    var rec := Entry(doc, date, game);
    if rec.Some? && rec.value.JObj? then Lookup(rec.value.fields, key) else None
  }

  /** The record total, reading an absent or unusable total as 0. */
  function TotalOf(doc: Json, date: string, game: string): int {
    var t := FieldAt(doc, date, game, "total");
    if t.Some? && NumericValue(t.value).Some? then NumericValue(t.value).value else 0
  }

  /** The record `_record` creates for a game with no record that day. */
  const DefaultRecord: Dict<Json> := [("total", JInt(0)), ("last_open", JNull), ("last_close", JNull)]

  /** The shapes on which `setdefault` and `+=` do not raise: the
      document and the day's bucket (when present) are objects, and the
      game's record (when present) is an object with a numeric total. */
  predicate Mergeable(doc: Json, date: string, game: string) {
    && doc.JObj?
    && match Lookup(doc.fields, date)
      case None => true
      case Some(bucket) =>
        && bucket.JObj?
        && match Lookup(bucket.fields, game)
          case None => true
          case Some(rec) =>
            && rec.JObj?
            && match Lookup(rec.fields, "total")
              case None => false
              case Some(t) => NumericValue(t).Some?
  }

  /** The record at (date, game) holds `total` and the two timestamps. */
  predicate SessionRecorded(doc: Json, date: string, game: string, total: int, openStamp: string, closeStamp: string) {
    && FieldAt(doc, date, game, "total") == Some(JInt(total))
    && FieldAt(doc, date, game, "last_open") == Some(JStr(openStamp))
    && FieldAt(doc, date, game, "last_close") == Some(JStr(closeStamp))
  }

  /** The day's bucket as `setdefault` leaves it: the existing object's
      items, or a new empty one. */
  function BucketFields(doc: Json, date: string): Dict<Json> {
    if doc.JObj? && Lookup(doc.fields, date).Some? && Lookup(doc.fields, date).value.JObj?
    then Lookup(doc.fields, date).value.fields
    else []
  }

  /** The game's record as `setdefault` leaves it. */
  function RecordFields(bucket: Dict<Json>, game: string): Dict<Json> {
    if Lookup(bucket, game).Some? && Lookup(bucket, game).value.JObj?
    then Lookup(bucket, game).value.fields
    else DefaultRecord
  }

  /** A record after `+=` on its total and the two timestamp writes. */
  function Stamped(rec: Dict<Json>, total: int, openStamp: string, closeStamp: string): Dict<Json> {
    Put(Put(Put(rec, "total", JInt(total)), "last_open", JStr(openStamp)), "last_close", JStr(closeStamp))
  }

  /** The stamped record reads the three written values, and every other
      field as before. */
  lemma StampedFields(rec: Dict<Json>, total: int, openStamp: string, closeStamp: string)
    ensures Lookup(Stamped(rec, total, openStamp, closeStamp), "total") == Some(JInt(total))
    ensures Lookup(Stamped(rec, total, openStamp, closeStamp), "last_open") == Some(JStr(openStamp))
    ensures Lookup(Stamped(rec, total, openStamp, closeStamp), "last_close") == Some(JStr(closeStamp))
    ensures forall k :: k != "total" && k != "last_open" && k != "last_close" ==>
      Lookup(Stamped(rec, total, openStamp, closeStamp), k) == Lookup(rec, k)
  {
  }

  /** The body of `_record` after loading: `setdefault` the day's bucket
      and the game's record, add the duration to the total and overwrite
      both timestamps. `None` is the exception a malformed document
      raises. */
  function MergeSession(doc: Json, date: string, game: string, duration: int, openStamp: string, closeStamp: string)
    : Option<Json>
  {
    if !Mergeable(doc, date, game) then None
    else
      var bucket := BucketFields(doc, date);
      var rec := Stamped(RecordFields(bucket, game), TotalOf(doc, date, game) + duration, openStamp, closeStamp);
      Some(JObj(Put(doc.fields, date, JObj(Put(bucket, game, JObj(rec))))))
  }

  /** The merge raises exactly on a malformed document. */
  lemma MergeSessionFails(doc: Json, date: string, game: string, duration: int, openStamp: string, closeStamp: string)
    ensures MergeSession(doc, date, game, duration, openStamp, closeStamp).None? <==> !Mergeable(doc, date, game)
  {
  }

  /** What a successful merge does: it adds the date (if new) and changes
      no other date; within the date it changes no other game; the game's
      record holds the old total plus the duration and the two
      timestamps, and its other fields are kept. */
  lemma MergeSessionSpec(doc: Json, date: string, game: string, duration: int, openStamp: string, closeStamp: string)
    requires Mergeable(doc, date, game)
    ensures MergeSession(doc, date, game, duration, openStamp, closeStamp).Some?
    ensures MergeSession(doc, date, game, duration, openStamp, closeStamp).value.JObj?
    ensures KeysOf(MergeSession(doc, date, game, duration, openStamp, closeStamp).value.fields) == KeysOf(doc.fields) + {date}
    ensures forall d :: d != date ==>
      Lookup(MergeSession(doc, date, game, duration, openStamp, closeStamp).value.fields, d) == Lookup(doc.fields, d)
    ensures forall g :: g != game ==>
      Entry(MergeSession(doc, date, game, duration, openStamp, closeStamp).value, date, g) == Entry(doc, date, g)
    ensures SessionRecorded(MergeSession(doc, date, game, duration, openStamp, closeStamp).value, date, game,
                            TotalOf(doc, date, game) + duration, openStamp, closeStamp)
    ensures forall k :: k != "total" && k != "last_open" && k != "last_close" ==>
      FieldAt(MergeSession(doc, date, game, duration, openStamp, closeStamp).value, date, game, k) == FieldAt(doc, date, game, k)
  {
    var bucket := BucketFields(doc, date);
    var rec := Stamped(RecordFields(bucket, game), TotalOf(doc, date, game) + duration, openStamp, closeStamp);
    var doc' := JObj(Put(doc.fields, date, JObj(Put(bucket, game, JObj(rec)))));
    assert MergeSession(doc, date, game, duration, openStamp, closeStamp) == Some(doc');
    StampedFields(RecordFields(bucket, game), TotalOf(doc, date, game) + duration, openStamp, closeStamp);
    assert Entry(doc', date, game) == Some(JObj(rec));
    RecordFieldsOther(doc, date, game);
  }

  /** Outside the three fields `_record` writes, the record `setdefault`
      yields reads like the stored one (a new record has no other field). */
  lemma RecordFieldsOther(doc: Json, date: string, game: string)
    requires Mergeable(doc, date, game)
    ensures forall k :: k != "total" && k != "last_open" && k != "last_close" ==>
      Lookup(RecordFields(BucketFields(doc, date), game), k) == FieldAt(doc, date, game, k)
  {
    if Entry(doc, date, game).None? {
      forall k | k != "total" && k != "last_open" && k != "last_close"
        ensures Lookup(DefaultRecord, k) == None
      {
        assert KeysOf(DefaultRecord) == {"total", "last_open", "last_close"};
      }
    }
  }

  // ---------------------------------------------------------------------
  // `_record` and the sequence of records one tick makes
  // ---------------------------------------------------------------------

  /** What one `_record` call leaves behind: the data file, whether it
      returned normally, and the events it logged. */
  datatype Effect = Effect(file: DataFile, ok: bool, events: seq<LogEvent>)

  /** `_record(exe, start, duration)` against data file `f`: log the stop,
      load (the empty document when the file cannot be read or parsed),
      merge, save. A malformed document raises before anything is saved. */
  function RecordEffect(f: DataFile, exe: string, game: string, start: int, duration: int, clock: Clock, save: SaveOutcome)
    : Effect
  {
    var shown := [Stopped(exe, game, duration)];
    var loadLog := if f.Parsed? then [] else [LoadWarning];
    var merged := MergeSession(Load(f), clock.day(clock.ms), game, duration, clock.stamp(start), clock.stamp(clock.ms));
    if merged.None? then Effect(f, false, shown + loadLog)
    else Effect(Saved(f, merged.value, save), true, shown + loadLog + (if save.Written? then [] else [SaveError]))
  }

  /** `_record` fails exactly on a malformed document. A failure, or a
      save whose open fails, leaves the file as it was; a save that fails
      part-way leaves a file the next `_load` reads as `{}`, so the
      recorded history is lost. */
  lemma RecordEffectSpec(f: DataFile, exe: string, game: string, start: int, duration: int, clock: Clock, save: SaveOutcome)
    ensures RecordEffect(f, exe, game, start, duration, clock, save).ok <==> Mergeable(Load(f), clock.day(clock.ms), game)
    ensures !RecordEffect(f, exe, game, start, duration, clock, save).ok || save.OpenFailed? ==>
      RecordEffect(f, exe, game, start, duration, clock, save).file == f
    ensures RecordEffect(f, exe, game, start, duration, clock, save).ok && save.WriteFailed? ==>
      Load(RecordEffect(f, exe, game, start, duration, clock, save).file) == EmptyDoc
    ensures RecordEffect(f, exe, game, start, duration, clock, save).ok && save.Written? ==>
      RecordEffect(f, exe, game, start, duration, clock, save).file.Parsed?
  {
  }

  /** The first line `_record` logs is the session's duration. */
  lemma RecordEffectLogsFirst(f: DataFile, exe: string, game: string, start: int, duration: int, clock: Clock, save: SaveOutcome)
    ensures RecordEffect(f, exe, game, start, duration, clock, save).events != []
    ensures RecordEffect(f, exe, game, start, duration, clock, save).events[0] == Stopped(exe, game, duration)
  {
  }

  /** A saved record holds the session: the day's record of the game has
      the old total plus the duration and the session's two timestamps. */
  lemma RecordEffectWrites(f: DataFile, exe: string, game: string, start: int, duration: int, clock: Clock)
    requires Mergeable(Load(f), clock.day(clock.ms), game)
    ensures RecordEffect(f, exe, game, start, duration, clock, Written).file.Parsed?
    ensures RecordEffect(f, exe, game, start, duration, clock, Written).file.doc ==
      MergeSession(Load(f), clock.day(clock.ms), game, duration, clock.stamp(start), clock.stamp(clock.ms)).value
  {
    MergeSessionSpec(Load(f), clock.day(clock.ms), game, duration, clock.stamp(start), clock.stamp(clock.ms));
  }

  /** The merge of a session that the document accepts records it with
      the summed total, which the record reads back, and the document
      accepts the next merge too. */
  lemma MergeSessionTotal(doc: Json, date: string, game: string, duration: int, openStamp: string, closeStamp: string)
    requires Mergeable(doc, date, game)
    ensures MergeSession(doc, date, game, duration, openStamp, closeStamp).Some?
    ensures Mergeable(MergeSession(doc, date, game, duration, openStamp, closeStamp).value, date, game)
    ensures TotalOf(MergeSession(doc, date, game, duration, openStamp, closeStamp).value, date, game) ==
      TotalOf(doc, date, game) + duration
  {
    var bucket := BucketFields(doc, date);
    var rec := Stamped(RecordFields(bucket, game), TotalOf(doc, date, game) + duration, openStamp, closeStamp);
    var doc' := JObj(Put(doc.fields, date, JObj(Put(bucket, game, JObj(rec)))));
    assert MergeSession(doc, date, game, duration, openStamp, closeStamp) == Some(doc');
    StampedFields(RecordFields(bucket, game), TotalOf(doc, date, game) + duration, openStamp, closeStamp);
    assert Lookup(doc'.fields, date) == Some(JObj(Put(bucket, game, JObj(rec))));
    assert Entry(doc', date, game) == Some(JObj(rec));
    assert FieldAt(doc', date, game, "total") == Some(JInt(TotalOf(doc, date, game) + duration));
    assert NumericValue(JInt(TotalOf(doc, date, game) + duration)).Some?;
  }

  /** Two executables that share a display name accumulate into one
      record: `_record` keys the document by the name, not by the
      executable, so two sessions that end on the same day add up. */
  lemma SameNameAccumulates(f: DataFile, exe1: string, exe2: string, game: string, start1: int, start2: int,
                            d1: int, d2: int, clock: Clock)
    requires Mergeable(Load(f), clock.day(clock.ms), game)
    ensures RecordEffect(f, exe1, game, start1, d1, clock, Written).ok
    ensures var f1 := RecordEffect(f, exe1, game, start1, d1, clock, Written).file;
      && RecordEffect(f1, exe2, game, start2, d2, clock, Written).ok
      && RecordEffect(f1, exe2, game, start2, d2, clock, Written).file.Parsed?
      && TotalOf(RecordEffect(f1, exe2, game, start2, d2, clock, Written).file.doc, clock.day(clock.ms), game)
         == TotalOf(Load(f), clock.day(clock.ms), game) + d1 + d2
  {
    var day := clock.day(clock.ms);
    var close := clock.stamp(clock.ms);
    var t0 := TotalOf(Load(f), day, game);
    var m1 := MergeSession(Load(f), day, game, d1, clock.stamp(start1), close);
    MergeSessionTotal(Load(f), day, game, d1, clock.stamp(start1), close);
    var f1 := RecordEffect(f, exe1, game, start1, d1, clock, Written).file;
    assert f1 == Parsed(m1.value);
    var m2 := MergeSession(m1.value, day, game, d2, clock.stamp(start2), close);
    MergeSessionTotal(m1.value, day, game, d2, clock.stamp(start2), close);
    assert RecordEffect(f1, exe2, game, start2, d2, clock, Written).file == Parsed(m2.value);
  }

  /** The outcome of the stop loop: the data file, how many entries were
      popped, whether every `_record` returned normally, and the events
      logged. */
  datatype Outcome = Outcome(file: DataFile, popped: nat, ok: bool, events: seq<LogEvent>)

  predicate InCatalog(d: Dict<int>, games: map<string, GameInfo>) {
    forall e :: e in d ==> e.0 in games
  }

  /** Records the ended sessions `gone` in order, each with the duration
      up to the tick's clock reading. The first `_record` that raises ends
      the tick: its entry is already popped, the later ones are not. */
  function Replay(f: DataFile, gone: Dict<int>, games: map<string, GameInfo>, clock: Clock, saves: nat -> SaveOutcome)
    : (out: Outcome)
    requires InCatalog(gone, games)
    ensures out.popped <= |gone|
    ensures out.ok ==> out.popped == |gone|
    ensures (forall n :: 0 <= n < |gone| ==> saves(n).OpenFailed?) ==> out.file == f
  {
    if gone == [] then Outcome(f, 0, true, [])
    else
      assert forall e :: e in gone[..|gone| - 1] ==> e in gone;
      var prev := Replay(f, gone[..|gone| - 1], games, clock, saves);
      if !prev.ok then prev
      else
        var exe := gone[|gone| - 1].0;
        var start := gone[|gone| - 1].1;
        RecordEffectSpec(prev.file, exe, games[exe].name, start, Elapsed(start, clock.ms), clock, saves(|gone| - 1));
        var e := RecordEffect(prev.file, exe, games[exe].name, start, Elapsed(start, clock.ms), clock, saves(|gone| - 1));
        Outcome(e.file, prev.popped + 1, e.ok, prev.events + e.events)
  }

  /** After a `_record` raised, later entries change nothing. */
  lemma {:induction false} ReplayFailSticks(f: DataFile, a: Dict<int>, b: Dict<int>, games: map<string, GameInfo>,
                                            clock: Clock, saves: nat -> SaveOutcome)
    requires InCatalog(a + b, games)
    requires InCatalog(a, games) && !Replay(f, a, games, clock, saves).ok
    ensures Replay(f, a + b, games, clock, saves) == Replay(f, a, games, clock, saves)
    decreases |b|
  {
    if b == [] {
      assert a + b == a;
    } else {
      var b' := b[..|b| - 1];
      assert (a + b)[..|a + b| - 1] == a + b';
      assert InCatalog(a + b', games);
      ReplayFailSticks(f, a, b', games, clock, saves);
    }
  }

  // ---------------------------------------------------------------------
  // The process scan of one tick
  // ---------------------------------------------------------------------

  /** The scan loop's state: the names seen, the running dict and the
      events logged so far. */
  datatype ScanState = ScanState(seen: set<string>, running: Dict<int>, events: seq<LogEvent>)

  /** One iteration of the scan loop. */
  function ScanStep(st: ScanState, p: Proc, games: map<string, GameInfo>, now: int): ScanState {
    if p.Broken? then st.(events := st.events + [InspectWarning])
    else if ExeOf(p).None? || ExeOf(p).value !in games then st
    else
      var name := ExeOf(p).value;
      if name in KeysOf(st.running) then st.(seen := st.seen + {name})
      else ScanState(st.seen + {name}, st.running + [(name, now)],
                     st.events + [Started(name, games[name].name, p.pid, games[name].exePath)])
  }

  lemma ScanStepSeen(st: ScanState, p: Proc, games: map<string, GameInfo>, now: int)
    ensures ScanStep(st, p, games, now).seen ==
      st.seen + (if ExeOf(p).Some? && ExeOf(p).value in games then {ExeOf(p).value} else {})
  {
  }

  /** The scan loop over `procs`, starting from the running dict `running0`. */
  function ScanFold(procs: seq<Proc>, games: map<string, GameInfo>, running0: Dict<int>, now: int): ScanState {
    if procs == [] then ScanState({}, running0, [])
    else ScanStep(ScanFold(procs[..|procs| - 1], games, running0, now), procs[|procs| - 1], games, now)
  }

  /** The names the scan collects are exactly the catalog names among the
      processes' executables. */
  lemma {:induction false} ScanSeen(procs: seq<Proc>, games: map<string, GameInfo>, running0: Dict<int>, now: int)
    ensures ScanFold(procs, games, running0, now).seen == Matched(procs, games)
  {
    if procs != [] {
      var init := procs[..|procs| - 1];
      var p := procs[|procs| - 1];
      var prev := ScanFold(init, games, running0, now);
      ScanSeen(init, games, running0, now);
      assert procs == init + [p];
      MatchedSnoc(init, p, games);
      ScanStepSeen(prev, p, games, now);
    }
  }

  /** The running keys after the scan are the old keys plus the names
      seen, each once. */
  lemma {:induction false} ScanKeys(procs: seq<Proc>, games: map<string, GameInfo>, running0: Dict<int>, now: int)
    ensures KeysOf(ScanFold(procs, games, running0, now).running) ==
      KeysOf(running0) + ScanFold(procs, games, running0, now).seen
    ensures DistinctKeys(running0) ==> DistinctKeys(ScanFold(procs, games, running0, now).running)
  {
    if procs != [] {
      var init := procs[..|procs| - 1];
      var p := procs[|procs| - 1];
      ScanKeys(init, games, running0, now);
      var prev := ScanFold(init, games, running0, now);
      if !p.Broken? && ExeOf(p).Some? && ExeOf(p).value in games && ExeOf(p).value !in KeysOf(prev.running) {
        var e := (ExeOf(p).value, now);
        KeysOfAppend(prev.running, [e]);
        DistinctSnoc(prev.running, e);
      }
    }
  }

  /** The scan only appends: entries already running keep their position
      and start time, and each appended entry is a name that was not
      running, with the tick's time. */
  lemma {:induction false} ScanAppends(procs: seq<Proc>, games: map<string, GameInfo>, running0: Dict<int>, now: int)
    ensures |running0| <= |ScanFold(procs, games, running0, now).running|
    ensures ScanFold(procs, games, running0, now).running[..|running0|] == running0
    ensures forall i :: |running0| <= i < |ScanFold(procs, games, running0, now).running| ==>
      ScanFold(procs, games, running0, now).running[i].1 == now &&
      ScanFold(procs, games, running0, now).running[i].0 !in KeysOf(running0)
  {
    if procs != [] {
      var init := procs[..|procs| - 1];
      var p := procs[|procs| - 1];
      ScanAppends(init, games, running0, now);
      ScanKeys(init, games, running0, now);
      var prev := ScanFold(init, games, running0, now);
      if !p.Broken? && ExeOf(p).Some? && ExeOf(p).value in games && ExeOf(p).value !in KeysOf(prev.running) {
        var e := (ExeOf(p).value, now);
        var next := prev.running + [e];
        assert next[..|running0|] == prev.running[..|running0|];
        assert e.0 !in KeysOf(running0);
        forall i | |running0| <= i < |next|
          ensures next[i].1 == now && next[i].0 !in KeysOf(running0)
        {
          if i < |prev.running| {
            assert next[i] == prev.running[i];
          }
        }
      }
    }
  }

  /** A scan announces an executable at most once, and never one that
      was already running, however many of its processes are listed. */
  lemma {:induction false} ScanStartsOnce(procs: seq<Proc>, games: map<string, GameInfo>, running0: Dict<int>, now: int)
    ensures var st := ScanFold(procs, games, running0, now);
      forall i :: 0 <= i < |st.events| && st.events[i].Started? ==>
        st.events[i].exe in KeysOf(st.running) && st.events[i].exe !in KeysOf(running0)
    ensures var ev := ScanFold(procs, games, running0, now).events;
      forall i, j :: 0 <= i < j < |ev| && ev[i].Started? && ev[j].Started? ==> ev[i].exe != ev[j].exe
  {
    if procs != [] {
      var init := procs[..|procs| - 1];
      var p := procs[|procs| - 1];
      ScanStartsOnce(init, games, running0, now);
      ScanKeys(init, games, running0, now);
      var prev := ScanFold(init, games, running0, now);
      if !p.Broken? && ExeOf(p).Some? && ExeOf(p).value in games && ExeOf(p).value !in KeysOf(prev.running) {
        KeysOfAppend(prev.running, [(ExeOf(p).value, now)]);
      }
    }
  }

  /** Splitting the running dict: the sessions that end in a prefix, then
      in the rest. */
  lemma {:induction false} VanishingAppend(a: Dict<int>, b: Dict<int>, seen: set<string>)
    ensures Vanishing(a + b, seen) == Vanishing(a, seen) + Vanishing(b, seen)
    decreases |b|
  {
    if b == [] {
      assert a + b == a;
    } else {
      var b' := b[..|b| - 1];
      assert (a + b)[..|a + b| - 1] == a + b';
      assert (a + b)[|a + b| - 1] == b[|b| - 1];
      VanishingAppend(a, b', seen);
    }
  }

  lemma {:induction false} WithoutNothing<V>(d: Dict<V>)
    ensures Without(d, {}) == d
  {
    if d != [] {
      WithoutNothing(d[1..]);
    }
  }

  lemma {:induction false} LookupWithout<V>(d: Dict<V>, gone: set<string>, k: string)
    requires k !in gone
    ensures Lookup(Without(d, gone), k) == Lookup(d, k)
  {
    if d != [] {
      LookupWithout(d[1..], gone, k);
    }
  }

  lemma InCatalogSub(d: Dict<int>, r: Dict<int>, games: map<string, GameInfo>)
    requires InCatalog(d, games)
    requires forall e :: e in r ==> e in d
    ensures InCatalog(r, games)
  {
  }

  lemma InCatalogKeys(d: Dict<int>, games: map<string, GameInfo>)
    ensures InCatalog(d, games) <==> KeysOf(d) <= games.Keys
  {
    if InCatalog(d, games) {
      forall k | k in KeysOf(d) ensures k in games {
        var i := KeyIndex(d, k);
        assert d[i] in d;
      }
    }
    if KeysOf(d) <= games.Keys {
      forall e | e in d ensures e.0 in games {
        var i :| 0 <= i < |d| && d[i] == e;
      }
    }
  }

  /** A scan that starts from catalog entries yields catalog entries. */
  lemma ScanInCatalog(procs: seq<Proc>, games: map<string, GameInfo>, running0: Dict<int>, now: int)
    requires InCatalog(running0, games)
    ensures InCatalog(ScanFold(procs, games, running0, now).running, games)
    ensures InCatalog(Vanishing(ScanFold(procs, games, running0, now).running, ScanFold(procs, games, running0, now).seen), games)
  {
    var st := ScanFold(procs, games, running0, now);
    ScanKeys(procs, games, running0, now);
    ScanSeen(procs, games, running0, now);
    InCatalogKeys(running0, games);
    InCatalogKeys(st.running, games);
    InCatalogSub(st.running, Vanishing(st.running, st.seen), games);
  }

  /** The records one tick makes for the sessions that end. */
  function TickReplay(procs: seq<Proc>, games: map<string, GameInfo>, running0: Dict<int>, f: DataFile,
                      clock: Clock, saves: nat -> SaveOutcome): (out: Outcome)
    requires InCatalog(running0, games)
    ensures out.popped <= |Vanishing(ScanFold(procs, games, running0, clock.ms).running,
                                     ScanFold(procs, games, running0, clock.ms).seen)|
  {
    ScanInCatalog(procs, games, running0, clock.ms);
    Replay(f, Vanishing(ScanFold(procs, games, running0, clock.ms).running,
                        ScanFold(procs, games, running0, clock.ms).seen), games, clock, saves)
  }

  /** The running dict after one tick: the scan's dict without the
      entries popped by the stop loop. */
  function RunningAfter(procs: seq<Proc>, games: map<string, GameInfo>, running0: Dict<int>, f: DataFile,
                        clock: Clock, saves: nat -> SaveOutcome): Dict<int>
    requires InCatalog(running0, games)
  {
    var st := ScanFold(procs, games, running0, clock.ms);
    var out := TickReplay(procs, games, running0, f, clock, saves);
    Without(st.running, KeysOf(Vanishing(st.running, st.seen)[..out.popped]))
  }

  /** Looking a key up in a dict that starts with `a` finds `a`'s entry. */
  lemma {:induction false} LookupPrefix<V>(a: Dict<V>, b: Dict<V>, k: string)
    requires k in KeysOf(a)
    ensures Lookup(a + b, k) == Lookup(a, k)
  {
    assert (a + b)[0] == a[0];
    if a[0].0 != k {
      assert (a + b)[1..] == a[1..] + b;
      LookupPrefix(a[1..], b, k);
    }
  }

  /** An executable that was running and is still seen keeps its start
      time across the tick. */
  lemma StillRunningKeepsStart(procs: seq<Proc>, games: map<string, GameInfo>, running0: Dict<int>, f: DataFile,
                               clock: Clock, saves: nat -> SaveOutcome, exe: string)
    requires InCatalog(running0, games)
    requires exe in KeysOf(running0) && exe in Matched(procs, games)
    ensures Lookup(RunningAfter(procs, games, running0, f, clock, saves), exe) == Lookup(running0, exe)
  {
    var st := ScanFold(procs, games, running0, clock.ms);
    var out := TickReplay(procs, games, running0, f, clock, saves);
    ScanSeen(procs, games, running0, clock.ms);
    ScanAppends(procs, games, running0, clock.ms);
    assert st.running == running0 + st.running[|running0|..];
    LookupPrefix(running0, st.running[|running0|..], exe);
    var gone := Vanishing(st.running, st.seen)[..out.popped];
    assert exe !in KeysOf(gone) by {
      forall i | 0 <= i < |gone| ensures gone[i].0 != exe {
        assert gone[i] in Vanishing(st.running, st.seen);
      }
      if exe in KeysOf(gone) {
        var i := KeyIndex(gone, exe);
      }
    }
    LookupWithout(st.running, KeysOf(gone), exe);
  }

  /** When the stop loop reaches its end, the entries left are exactly
      the executables seen in the scan. */
  lemma {:induction false} StopAllLeavesSeen(snap: Dict<int>, seen: set<string>)
    requires seen <= KeysOf(snap)
    ensures KeysOf(Without(snap, KeysOf(Vanishing(snap, seen)))) == seen
  {
    VanishingKeys(snap, seen);
  }

  /** The stop loop once the replay of the sessions ended among the
      first `k` entries has failed: the later entries change nothing. */
  lemma StopFailsAt(f: DataFile, snap: Dict<int>, seen: set<string>, games: map<string, GameInfo>,
                    clock: Clock, saves: nat -> SaveOutcome, k: nat)
    requires InCatalog(snap, games) && k <= |snap|
    requires InCatalog(Vanishing(snap[..k], seen), games)
    requires !Replay(f, Vanishing(snap[..k], seen), games, clock, saves).ok
    requires Replay(f, Vanishing(snap[..k], seen), games, clock, saves).popped == |Vanishing(snap[..k], seen)|
    ensures InCatalog(Vanishing(snap, seen), games)
    ensures Replay(f, Vanishing(snap, seen), games, clock, saves) == Replay(f, Vanishing(snap[..k], seen), games, clock, saves)
    ensures Vanishing(snap, seen)[..Replay(f, Vanishing(snap, seen), games, clock, saves).popped] == Vanishing(snap[..k], seen)
  {
    var a := Vanishing(snap[..k], seen);
    var b := Vanishing(snap[k..], seen);
    VanishingSplit(snap, seen, k);
    InCatalogSub(snap, a + b, games);
    ReplayFailSticks(f, a, b, games, clock, saves);
    assert (a + b)[..|a|] == a;
  }

  lemma VanishingSplit(snap: Dict<int>, seen: set<string>, k: nat)
    requires k <= |snap|
    ensures Vanishing(snap, seen) == Vanishing(snap[..k], seen) + Vanishing(snap[k..], seen)
  {
    assert snap == snap[..k] + snap[k..];
    VanishingAppend(snap[..k], snap[k..], seen);
  }

  /** The stop loop after the last entry: every ended session was
      recorded and popped. */
  lemma StopCompletes(f: DataFile, snap: Dict<int>, seen: set<string>, games: map<string, GameInfo>,
                      clock: Clock, saves: nat -> SaveOutcome)
    requires InCatalog(Vanishing(snap[..|snap|], seen), games)
    requires Replay(f, Vanishing(snap[..|snap|], seen), games, clock, saves).ok
    ensures InCatalog(Vanishing(snap, seen), games)
    ensures Replay(f, Vanishing(snap, seen), games, clock, saves) == Replay(f, Vanishing(snap[..|snap|], seen), games, clock, saves)
    ensures Vanishing(snap, seen)[..Replay(f, Vanishing(snap, seen), games, clock, saves).popped] == Vanishing(snap, seen)
  {
    VanishingWhole(snap, seen);
    var gone := Vanishing(snap, seen);
    assert gone[..|gone|] == gone;
  }

  lemma VanishingWhole(snap: Dict<int>, seen: set<string>)
    ensures Vanishing(snap[..|snap|], seen) == Vanishing(snap, seen)
  {
    assert snap[..|snap|] == snap;
  }

  /** An entry that is still seen adds no ended session. */
  lemma VanishingKept(snap: Dict<int>, seen: set<string>, j: nat)
    requires j < |snap| && snap[j].0 in seen
    ensures Vanishing(snap[..j + 1], seen) == Vanishing(snap[..j], seen)
  {
    assert snap[..j + 1][..j] == snap[..j];
  }

  /** The ended sessions around an entry `j` that ends. */
  lemma VanishingAt(snap: Dict<int>, seen: set<string>, j: nat)
    requires j < |snap| && snap[j].0 !in seen
    ensures Vanishing(snap, seen) == (Vanishing(snap[..j], seen) + [snap[j]]) + Vanishing(snap[j + 1..], seen)
  {
    assert snap[..j + 1] == snap[..j] + [snap[j]];
    assert snap == snap[..j + 1] + snap[j + 1..];
    VanishingAppend(snap[..j], [snap[j]], seen);
    VanishingAppend(snap[..j + 1], snap[j + 1..], seen);
    assert Vanishing([snap[j]], seen) == [snap[j]] by {
      assert [snap[j]][..0] == [];
    }
  }

  /** One step of the stop loop at an entry `j` that ends: the sessions
      ended so far grow by that entry, its executable is still in the
      running dict with its start time, and popping it removes exactly
      the ended executables. */
  lemma StopStep(snap: Dict<int>, seen: set<string>, j: nat)
    requires DistinctKeys(snap) && j < |snap| && snap[j].0 !in seen
    ensures Vanishing(snap[..j + 1], seen) == Vanishing(snap[..j], seen) + [snap[j]]
    ensures snap[j].0 !in KeysOf(Vanishing(snap[..j], seen))
    ensures Lookup(Without(snap, KeysOf(Vanishing(snap[..j], seen))), snap[j].0) == Some(snap[j].1)
    ensures Without(Without(snap, KeysOf(Vanishing(snap[..j], seen))), {snap[j].0}) ==
      Without(snap, KeysOf(Vanishing(snap[..j + 1], seen)))
  {
    var ended := Vanishing(snap[..j], seen);
    var exe := snap[j].0;
    VanishingAt(snap[..j + 1], seen, j);
    assert snap[..j + 1][..j] == snap[..j];
    assert snap[..j + 1][j + 1..] == [];
    assert Vanishing(snap[..j + 1], seen) == ended + [snap[j]];
    VanishingKeys(snap[..j], seen);
    assert snap[..j + 1][..j] == snap[..j];
    assert DistinctKeys(snap[..j + 1]);
    DistinctLast(snap[..j + 1]);
    LookupWithout(snap, KeysOf(ended), exe);
    LookupDistinct(snap, j);
    WithoutMore(snap, KeysOf(ended), exe);
    KeysOfAppend(ended, [snap[j]]);
    assert KeysOf([snap[j]]) == {exe};
  }

  /** The replay of one more ended session, after the earlier ones were
      all recorded. */
  lemma ReplaySnoc(f: DataFile, ended: Dict<int>, last: (string, int), games: map<string, GameInfo>,
                   clock: Clock, saves: nat -> SaveOutcome)
    requires InCatalog(ended + [last], games)
    requires InCatalog(ended, games) && Replay(f, ended, games, clock, saves).ok
    ensures Replay(f, ended + [last], games, clock, saves) ==
      Outcome(RecordEffect(Replay(f, ended, games, clock, saves).file, last.0, games[last.0].name, last.1,
                           Elapsed(last.1, clock.ms), clock, saves(|ended|)).file,
              |ended| + 1,
              RecordEffect(Replay(f, ended, games, clock, saves).file, last.0, games[last.0].name, last.1,
                           Elapsed(last.1, clock.ms), clock, saves(|ended|)).ok,
              Replay(f, ended, games, clock, saves).events +
              RecordEffect(Replay(f, ended, games, clock, saves).file, last.0, games[last.0].name, last.1,
                           Elapsed(last.1, clock.ms), clock, saves(|ended|)).events)
  {
    assert (ended + [last])[..|ended|] == ended;
  }

  // ---------------------------------------------------------------------
  // The watcher object
  // ---------------------------------------------------------------------

  /** A `ProcessWatcher`: the catalog it was built with, the optional log
      callback (modelled by which events it accepts without raising), the
      `running` dict, the data file, the events `_log` was called with,
      the lines printed to the console and the events delivered to the
      callback. */
  class ProcessWatcher {
    const games: map<string, GameInfo>
    const sink: Option<LogEvent -> bool>
    var running: Dict<int>
    var file: DataFile
    var logged: seq<LogEvent>
    var console: seq<ConsoleLine>
    var delivered: seq<LogEvent>

    /** `running` holds each catalog executable at most once, the console
        shows every logged event with a warning after each one the
        callback raised on, and the callback has received exactly the
        logged events it accepted. */
    ghost predicate Valid()
      reads this
    {
      && DistinctKeys(running)
      && InCatalog(running, games)
      && console == Printed(sink, logged)
      && delivered == Deliver(sink, logged)
    }

    /** `__init__`: no session is running; the data file is created with
        an empty document only when it does not exist; three start-up
        lines are logged. */
    constructor (games: map<string, GameInfo>, sink: Option<LogEvent -> bool>, existing: DataFile)
      ensures Valid()
      ensures this.games == games && this.sink == sink
      ensures running == []
      ensures file == Initialized(existing)
      ensures logged == [WatcherReady, Monitoring(|games|), DataPath]
    {
      this.games := games;
      this.sink := sink;
      running := [];
      file := Initialized(existing);
      logged := [];
      console := [];
      delivered := [];
      new;
      LogStartup();
    }

    /** The three lines `__init__` logs once the data file exists. */
    method LogStartup()
      requires Valid()
      modifies this`logged, this`console, this`delivered
      ensures Valid()
      ensures logged == old(logged) + [WatcherReady, Monitoring(|games|), DataPath]
    {
      Log(WatcherReady);
      Log(Monitoring(|games|));
      Log(DataPath);
    }

    /** `_log`: the event is always printed; it reaches the callback when
        there is one and it does not raise; a raising callback never
        propagates, and a warning is printed after the event instead. */
    method Log(e: LogEvent)
      requires Valid()
      modifies this`logged, this`console, this`delivered
      ensures Valid()
      ensures logged == old(logged) + [e]
      ensures console == old(console) + [Line(e)] +
        (if sink.Some? && !sink.value(e) then [CallbackWarning(e)] else [])
      ensures delivered == old(delivered) + (if sink.Some? && sink.value(e) then [e] else [])
      ensures running == old(running) && file == old(file)
    {
      DeliverAppend(sink, logged, e);
      PrintedAppend(sink, logged, e);
      logged := logged + [e];
      console := console + [Line(e)];
      if sink.Some? {
        if sink.value(e) {
          delivered := delivered + [e];
        } else {
          console := console + [CallbackWarning(e)];
        }
      }
    }

    /** `_load`: the parsed document, or the empty one with a warning. */
    method LoadDoc() returns (doc: Json)
      requires Valid()
      modifies this
      ensures Valid()
      ensures doc == Load(file)
      ensures logged == old(logged) + (if file.Parsed? then [] else [LoadWarning])
      ensures running == old(running) && file == old(file)
    {
      if file.Parsed? {
        doc := file.doc;
      } else {
        Log(LoadWarning);
        doc := EmptyDoc;
      }
    }

    /** `_save`: the document is written, or the failure is logged; a
        failed open leaves the file as it was, a failure part-way leaves
        it unreadable as JSON. */
    method Save(doc: Json, save: SaveOutcome)
      requires Valid()
      modifies this
      ensures Valid()
      ensures file == Saved(old(file), doc, save)
      ensures logged == old(logged) + (if save.Written? then [] else [SaveError])
      ensures running == old(running)
    {
      match save
      case Written =>
        file := Parsed(doc);
      case OpenFailed =>
        Log(SaveError);
      case WriteFailed(inChar) =>
        file := if inChar then Undecodable else Unparsable;
        Log(SaveError);
    }

    /** `_record`: adds one ended session to the document. `ok == false`
        is the exception a malformed document raises. */
    method Record(exe: string, start: int, duration: int, clock: Clock, save: SaveOutcome) returns (ok: bool)
      requires Valid() && exe in games
      modifies this
      ensures Valid()
      ensures file == RecordEffect(old(file), exe, games[exe].name, start, duration, clock, save).file
      ensures ok == RecordEffect(old(file), exe, games[exe].name, start, duration, clock, save).ok
      ensures logged == old(logged) + RecordEffect(old(file), exe, games[exe].name, start, duration, clock, save).events
      ensures running == old(running)
    {
      var game := games[exe].name;
      ghost var logged0 := logged;
      ghost var file0 := file;
      ghost var e := RecordEffect(file0, exe, game, start, duration, clock, save);
      Log(Stopped(exe, game, duration));
      ghost var loadLog: seq<LogEvent> := if file.Parsed? then [] else [LoadWarning];
      var data := LoadDoc();
      assert logged == logged0 + [Stopped(exe, game, duration)] + loadLog;
      var merged := MergeSession(data, clock.day(clock.ms), game, duration, clock.stamp(start), clock.stamp(clock.ms));
      if merged.None? {
        assert e == Effect(file0, false, [Stopped(exe, game, duration)] + loadLog);
        return false;
      }
      Save(merged.value, save);
      ok := true;
      ghost var saveLog: seq<LogEvent> := if save.Written? then [] else [SaveError];
      assert e == Effect(Saved(file0, merged.value, save), true, [Stopped(exe, game, duration)] + loadLog + saveLog);
      assert logged == logged0 + [Stopped(exe, game, duration)] + loadLog + saveLog;
      Concat4(logged0, [Stopped(exe, game, duration)], loadLog, saveLog);
    }

    /** The scan loop of `tick` (its first half): every catalog
        executable among the processes is collected into `seen`, and the
        ones not yet running are appended to `running` with the current
        time and logged. */
    method ScanProcs(procs: seq<Proc>, now: int) returns (seen: set<string>)
      requires Valid()
      modifies this
      ensures Valid()
      ensures seen == ScanFold(procs, games, old(running), now).seen
      ensures running == ScanFold(procs, games, old(running), now).running
      ensures logged == old(logged) + ScanFold(procs, games, old(running), now).events
      ensures file == old(file)
    {
      ghost var running0 := running;
      ghost var logged0 := logged;
      seen := {};
      var i := 0;
      assert procs[..0] == [];
      assert ScanFold(procs[..0], games, running0, now) == ScanState({}, running0, []);
      assert logged == logged0 + [];
      assert seen == ScanFold(procs[..i], games, running0, now).seen;
      assert running == ScanFold(procs[..i], games, running0, now).running;
      assert logged == logged0 + ScanFold(procs[..i], games, running0, now).events;
      while i < |procs|
        invariant 0 <= i <= |procs|
        invariant Valid()
        invariant file == old(file)
        invariant seen == ScanFold(procs[..i], games, running0, now).seen
        invariant running == ScanFold(procs[..i], games, running0, now).running
        invariant logged == logged0 + ScanFold(procs[..i], games, running0, now).events
      {
        var p := procs[i];
        ghost var st := ScanFold(procs[..i], games, running0, now);
        assert procs[..i + 1][..i] == procs[..i];
        assert ScanFold(procs[..i + 1], games, running0, now) == ScanStep(st, p, games, now);
        ghost var next := ScanStep(st, p, games, now);
        if p.Broken? {
          assert next == st.(events := st.events + [InspectWarning]);
          Log(InspectWarning);
          Concat3(logged0, st.events, [InspectWarning]);
        } else {
          var name := ExeOf(p);
          if name.Some? && name.value in games {
            seen := seen + {name.value};
            if name.value !in KeysOf(running) {
              var ev := Started(name.value, games[name.value].name, p.pid, games[name.value].exePath);
              assert next == ScanState(st.seen + {name.value}, st.running + [(name.value, now)], st.events + [ev]);
              DistinctSnoc(running, (name.value, now));
              running := running + [(name.value, now)];
              Log(ev);
              Concat3(logged0, st.events, [ev]);
            } else {
              assert next == st.(seen := st.seen + {name.value});
            }
          } else {
            assert next == st;
          }
        }
        assert seen == next.seen && running == next.running && logged == logged0 + next.events;
        assert seen == ScanFold(procs[..i + 1], games, running0, now).seen;
        assert running == ScanFold(procs[..i + 1], games, running0, now).running;
        assert logged == logged0 + ScanFold(procs[..i + 1], games, running0, now).events;
        i := i + 1;
      }
      assert procs[..i] == procs;
    }

    /** One ended session: `running.pop(exe)` and `_record` with the time
        elapsed since the popped start. */
    method Stop(exe: string, clock: Clock, save: SaveOutcome) returns (ok: bool)
      requires Valid() && exe in KeysOf(running) && exe in games
      modifies this
      ensures Valid()
      ensures running == Without(old(running), {exe})
      ensures ok == RecordEffect(old(file), exe, games[exe].name, Lookup(old(running), exe).value,
                                 Elapsed(Lookup(old(running), exe).value, clock.ms), clock, save).ok
      ensures file == RecordEffect(old(file), exe, games[exe].name, Lookup(old(running), exe).value,
                                   Elapsed(Lookup(old(running), exe).value, clock.ms), clock, save).file
      ensures logged == old(logged) + RecordEffect(old(file), exe, games[exe].name, Lookup(old(running), exe).value,
                                                     Elapsed(Lookup(old(running), exe).value, clock.ms), clock, save).events
    {
      var i := KeyIndex(running, exe);
      assert running[i] in running;
      var start := Lookup(running, exe).value;
      WithoutDistinct(running, {exe});
      InCatalogSub(running, Without(running, {exe}), games);
      running := Without(running, {exe});
      ok := Record(exe, start, Elapsed(start, clock.ms), clock, save);
    }

    /** One pass of the stop loop, at entry `j` of the snapshot `snap`:
        when the executable was not seen, pop it and record its session.
        The state before and after is that of replaying the sessions
        ended among the first `j` (resp. `j + 1`) entries. */
    method StopEntry(snap: Dict<int>, j: nat, seen: set<string>, clock: Clock, saves: nat -> SaveOutcome,
                     ghost file0: DataFile, ghost logged1: seq<LogEvent>) returns (ok: bool)
      requires Valid()
      requires InCatalog(snap, games) && DistinctKeys(snap) && j < |snap|
      requires InCatalog(Vanishing(snap[..j], seen), games)
      requires Replay(file0, Vanishing(snap[..j], seen), games, clock, saves).ok
      requires file == Replay(file0, Vanishing(snap[..j], seen), games, clock, saves).file
      requires logged == logged1 + Replay(file0, Vanishing(snap[..j], seen), games, clock, saves).events
      requires running == Without(snap, KeysOf(Vanishing(snap[..j], seen)))
      modifies this
      ensures Valid()
      ensures InCatalog(Vanishing(snap[..j + 1], seen), games)
      ensures Replay(file0, Vanishing(snap[..j + 1], seen), games, clock, saves).popped == |Vanishing(snap[..j + 1], seen)|
      ensures ok == Replay(file0, Vanishing(snap[..j + 1], seen), games, clock, saves).ok
      ensures file == Replay(file0, Vanishing(snap[..j + 1], seen), games, clock, saves).file
      ensures logged == logged1 + Replay(file0, Vanishing(snap[..j + 1], seen), games, clock, saves).events
      ensures running == Without(snap, KeysOf(Vanishing(snap[..j + 1], seen)))
    {
      ghost var ended := Vanishing(snap[..j], seen);
      ghost var out := Replay(file0, ended, games, clock, saves);
      var exe := snap[j].0;
      if exe !in seen {
        assert snap[j] in snap;
        StopStep(snap, seen, j);
        InCatalogSub(snap, ended + [snap[j]], games);
        ReplaySnoc(file0, ended, snap[j], games, clock, saves);
        ok := Stop(exe, clock, saves(|Vanishing(snap[..j], seen)|));
        ghost var e := RecordEffect(out.file, exe, games[exe].name, snap[j].1, Elapsed(snap[j].1, clock.ms), clock,
                                    saves(|ended|));
        Concat3(logged1, out.events, e.events);
      } else {
        VanishingKept(snap, seen, j);
        ok := true;
      }
    }

    /** The stop loop of `tick` (its second half): over a snapshot of
        `running`, each executable not in `seen` is popped and recorded
        with the time elapsed since its start. A `_record` that raises
        ends the loop. */
    method StopVanished(seen: set<string>, clock: Clock, saves: nat -> SaveOutcome) returns (completed: bool)
      requires Valid()
      modifies this
      ensures Valid()
      ensures completed == Replay(old(file), Vanishing(old(running), seen), games, clock, saves).ok
      ensures file == Replay(old(file), Vanishing(old(running), seen), games, clock, saves).file
      ensures running == Without(old(running), KeysOf(Vanishing(old(running), seen)[..Replay(old(file), Vanishing(old(running), seen), games, clock, saves).popped]))
      ensures logged == old(logged) + Replay(old(file), Vanishing(old(running), seen), games, clock, saves).events
    {
      ghost var file0 := file;
      ghost var logged1 := logged;
      var snap := running;
      var j := 0;
      var ok := true;
      assert snap[..0] == [];
      WithoutNothing(snap);
      while j < |snap| && ok
        invariant 0 <= j <= |snap|
        invariant Valid()
        invariant InCatalog(snap, games) && DistinctKeys(snap)
        invariant InCatalog(Vanishing(snap[..j], seen), games)
        invariant Replay(file0, Vanishing(snap[..j], seen), games, clock, saves).popped == |Vanishing(snap[..j], seen)|
        invariant ok == Replay(file0, Vanishing(snap[..j], seen), games, clock, saves).ok
        invariant file == Replay(file0, Vanishing(snap[..j], seen), games, clock, saves).file
        invariant logged == logged1 + Replay(file0, Vanishing(snap[..j], seen), games, clock, saves).events
        invariant running == Without(snap, KeysOf(Vanishing(snap[..j], seen)))
      {
        ok := StopEntry(snap, j, seen, clock, saves, file0, logged1);
        j := j + 1;
      }
      if ok {
        assert snap[..j] == snap;
        StopCompletes(file0, snap, seen, games, clock, saves);
      } else {
        StopFailsAt(file0, snap, seen, games, clock, saves, j);
      }
      completed := ok;
    }

    /** `tick`: the scan, then the stop loop over the scan's `running`.
        `completed == false` is the exception a `_record` raised, which
        ends the tick early. After a complete tick, `running` holds
        exactly the catalog executables seen in the scan. */
    method Tick(procs: seq<Proc>, clock: Clock, saves: nat -> SaveOutcome) returns (completed: bool)
      requires Valid()
      modifies this
      ensures Valid()
      ensures completed == TickReplay(procs, games, old(running), old(file), clock, saves).ok
      ensures file == TickReplay(procs, games, old(running), old(file), clock, saves).file
      ensures running == RunningAfter(procs, games, old(running), old(file), clock, saves)
      ensures logged == old(logged) + ScanFold(procs, games, old(running), clock.ms).events +
        TickReplay(procs, games, old(running), old(file), clock, saves).events
      ensures completed ==> KeysOf(running) == Matched(procs, games)
    {
      var seen := ScanProcs(procs, clock.ms);
      ScanSeen(procs, games, old(running), clock.ms);
      ScanKeys(procs, games, old(running), clock.ms);
      ghost var snap := running;
      completed := StopVanished(seen, clock, saves);
      if completed {
        assert Vanishing(snap, seen)[..|Vanishing(snap, seen)|] == Vanishing(snap, seen);
        StopAllLeavesSeen(snap, seen);
      }
    }
  }
}
