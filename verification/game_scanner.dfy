/** The catalog builder of steam/game_scanner.py: reads Steam's
    `appmanifest_<id>.acf` files and maps every executable found under a
    game's install directory to that game. Directory listings, the walk of
    a game's directory and the text of each manifest are inputs here. */
module GameScanner {
  import opened Common

  /** Auxiliary executables that are never monitored. */
  const ExeBlacklist: set<string> := {
    "unitycrashhandler.exe",
    "unitycrashhandler64.exe",
    "uninstall.exe",
    "crashreporter.exe"
  }

  /** One catalog value: the manifest's `name`, the app id taken from the
      manifest's file name, and the full path of the executable. */
  datatype GameInfo = GameInfo(name: string, appId: string, exePath: string)

  // ---------------------------------------------------------------------
  // The two manifest patterns, "key"\s+"(.+)", searched in one line.
  // ---------------------------------------------------------------------

  const NameKey: string := "name"
  const InstallDirKey: string := "installdir"

  /** The characters Python's `\s` matches in a `str` pattern (exactly
      those for which `str.isspace()` holds). */
  const SpaceChars: set<char> := {
    '\t', '\n', '\U{000B}', '\U{000C}', '\r', '\U{001C}', '\U{001D}', '\U{001E}', '\U{001F}',
    ' ', '\U{0085}', '\U{00A0}', '\U{1680}',
    '\U{2000}', '\U{2001}', '\U{2002}', '\U{2003}', '\U{2004}', '\U{2005}',
    '\U{2006}', '\U{2007}', '\U{2008}', '\U{2009}', '\U{200A}',
    '\U{2028}', '\U{2029}', '\U{202F}', '\U{205F}', '\U{3000}'
  }

  function Quoted(key: string): string {
    "\"" + key + "\""
  }

  /** End of the run of `\s` characters that starts at `from`. */
  function SpaceRun(line: string, from: nat): (j: nat)
    requires from <= |line|
    ensures from <= j <= |line|
    ensures forall t :: from <= t < j ==> line[t] in SpaceChars
    ensures j < |line| ==> line[j] !in SpaceChars
    decreases |line| - from
  {
    if from == |line| || line[from] !in SpaceChars then from else SpaceRun(line, from + 1)
  }

  /** How far `.` can reach from `from`: up to the first newline. */
  function LineEnd(line: string, from: nat): (e: nat)
    requires from <= |line|
    ensures from <= e <= |line|
    ensures forall t :: from <= t < e ==> line[t] != '\n'
    ensures e < |line| ==> line[e] == '\n'
    decreases |line| - from
  {
    if from == |line| || line[from] == '\n' then from else LineEnd(line, from + 1)
  }

  /** The last quote in `line[lo..hi]`, where greedy `.+` backtracks to. */
  function LastQuote(line: string, lo: nat, hi: nat): (k: Option<nat>)
    requires lo <= hi <= |line|
    ensures k.Some? ==> lo <= k.value < hi && line[k.value] == '"'
    ensures k.Some? ==> forall t :: k.value < t < hi ==> line[t] != '"'
    ensures k.None? ==> forall t :: lo <= t < hi ==> line[t] != '"'
    decreases hi - lo
  {
    if hi == lo then None
    else if line[hi - 1] == '"' then Some(hi - 1)
    else LastQuote(line, lo, hi - 1)
  }

  predicate NoNewline(c: string) {
    forall t :: 0 <= t < |c| ==> c[t] != '\n'
  }

  /** `line[start..]` holds `"key"`, one or more `\s` up to the quote at
      `j`, the capture (at least one character, no newline) and a closing
      quote. */
  ghost predicate ShapeAt(line: string, start: nat, key: string, j: nat, c: string) {
    var q := Quoted(key);
    && start + |q| < j
    && j + |c| + 1 < |line|
    && line[start..start + |q|] == q
    && (forall t :: start + |q| <= t < j ==> line[t] in SpaceChars)
    && line[j] == '"'
    && line[j + 1..j + 1 + |c|] == c
    && line[j + 1 + |c|] == '"'
    && c != []
    && NoNewline(c)
  }

  /** `c` is a capture of the pattern anchored at `start`. */
  ghost predicate CaptureShape(line: string, start: nat, key: string, c: string) {
    exists j: nat :: ShapeAt(line, start, key, j, c)
  }

  /** The regular expression anchored at position `i`. */
  function MatchAt(line: string, i: nat, key: string): (r: Option<string>)
    requires i <= |line|
    ensures r.Some? ==> CaptureShape(line, i, key, r.value)
  {
    var q := Quoted(key);
    if |line| - i < |q| || line[i..i + |q|] != q then None
    else
      var j := SpaceRun(line, i + |q|);
      if j == i + |q| || j == |line| || line[j] != '"' then None
      else
        var e := LineEnd(line, j + 1);
        if e < j + 2 then None
        else match LastQuote(line, j + 2, e)
          case None => None
          case Some(k) =>
            var c := line[j + 1..k];
            assert line[j + 1..j + 1 + |c|] == c;
            assert forall t :: 0 <= t < |c| ==> c[t] == line[j + 1 + t];
            assert ShapeAt(line, i, key, j, c);
            Some(c)
  }

  /** The anchored match is complete and greedy: whenever a capture of
      the pattern's shape sits at `i`, the matcher finds a match there, and
      no capture of that shape is longer than the one it returns (`\s+`
      cannot give back a character to the quote that follows it, and
      greedy `.+` backtracks only as far as the last quote). */
  lemma MatchAtComplete(line: string, i: nat, key: string, c: string)
    requires i <= |line| && CaptureShape(line, i, key, c)
    ensures MatchAt(line, i, key).Some? && |c| <= |MatchAt(line, i, key).value|
  {
    var j := ShapeParts(line, i, key, c);
    var k := LastQuote(line, j + 2, LineEnd(line, j + 1)).value;
    assert MatchAt(line, i, key) == Some(line[j + 1..k]);
  }

  /** What a capture of the pattern's shape at `i` forces on the parts of
      the matcher: the quoted key is there, the run of `\s` ends at the
      opening quote, `.` reaches past the closing quote, and the last quote
      before the line end is at or after it. */
  lemma ShapeParts(line: string, i: nat, key: string, c: string) returns (j: nat)
    requires i <= |line| && CaptureShape(line, i, key, c)
    ensures |line| - i >= |Quoted(key)| && line[i..i + |Quoted(key)|] == Quoted(key)
    ensures j == SpaceRun(line, i + |Quoted(key)|) && i + |Quoted(key)| < j < |line| && line[j] == '"'
    ensures LineEnd(line, j + 1) >= j + 2 + |c|
    ensures LastQuote(line, j + 2, LineEnd(line, j + 1)).Some?
    ensures LastQuote(line, j + 2, LineEnd(line, j + 1)).value >= j + 1 + |c|
  {
    var q := Quoted(key);
    j :| ShapeAt(line, i, key, j, c);
    assert '"' !in SpaceChars;
    SpaceRunAt(line, i + |q|, j);
    var close := j + 1 + |c|;
    forall t | j + 1 <= t <= close ensures line[t] != '\n' {
      if t < close {
        assert line[t] == line[j + 1..j + 1 + |c|][t - j - 1] == c[t - j - 1];
      }
    }
    LineEndBeyond(line, j + 1, close);
  }

  /** `.` reaches past every position up to `close` when none of them is
      a newline. */
  lemma LineEndBeyond(line: string, from: nat, close: nat)
    requires from <= close < |line|
    requires forall t :: from <= t <= close ==> line[t] != '\n'
    ensures LineEnd(line, from) > close
  {
  }

  /** The run of `\s` from `from` ends at the first character that is not
      in it. */
  lemma {:induction false} SpaceRunAt(line: string, from: nat, j: nat)
    requires from <= j < |line| && line[j] !in SpaceChars
    requires forall t :: from <= t < j ==> line[t] in SpaceChars
    ensures SpaceRun(line, from) == j
    decreases j - from
  {
    if from < j { SpaceRunAt(line, from + 1, j); }
  }

  /** `search` from position `i`: the match at the first position where
      the pattern matches. */
  function SearchFrom(line: string, i: nat, key: string): (r: Option<string>)
    requires i <= |line|
    ensures r.Some? ==> exists s :: i <= s <= |line| && CaptureShape(line, s, key, r.value)
    decreases |line| - i
  {
    match MatchAt(line, i, key)
    case Some(c) => Some(c)
    case None => if i == |line| then None else SearchFrom(line, i + 1, key)
  }

  /** `ACF_..._RE.search(line).group(1)`, or None when the line does not
      match: None exactly when no position of the line holds a capture of
      the pattern's shape. */
  function Capture(line: string, key: string): (r: Option<string>)
    ensures r.Some? ==> r.value != [] && exists s :: 0 <= s <= |line| && CaptureShape(line, s, key, r.value)
    ensures r.None? <==> forall s, c :: 0 <= s <= |line| ==> !CaptureShape(line, s, key, c)
  {
    var r := SearchFrom(line, 0, key);
    assert r.None? <==> forall s, c :: 0 <= s <= |line| ==> !CaptureShape(line, s, key, c) by {
      var s := SearchFromSpec(line, 0, key);
      if r.Some? {
        assert CaptureShape(line, s, key, r.value);
      }
    }
    assert r.Some? ==> r.value != [] by {
      if r.Some? {
        var s :| 0 <= s <= |line| && CaptureShape(line, s, key, r.value);
      }
    }
    r
  }

  /** `search` finds the match at the leftmost position where the pattern
      matches (the longest capture there, by MatchAt), and finds nothing
      exactly when no position of the line holds a capture of the
      pattern's shape. */
  lemma {:induction false} SearchFromSpec(line: string, i: nat, key: string) returns (s: nat)
    requires i <= |line|
    ensures SearchFrom(line, i, key).None? ==> forall s', c :: i <= s' <= |line| ==> !CaptureShape(line, s', key, c)
    ensures SearchFrom(line, i, key).Some? ==>
      && i <= s <= |line| && MatchAt(line, s, key) == SearchFrom(line, i, key)
      && forall s', c :: i <= s' < s ==> !CaptureShape(line, s', key, c)
    decreases |line| - i
  {
    s := i;
    if MatchAt(line, i, key).Some? {
      assert SearchFrom(line, i, key) == MatchAt(line, i, key);
    } else {
      assert forall c :: !CaptureShape(line, i, key, c) by {
        forall c ensures !CaptureShape(line, i, key, c) {
          if CaptureShape(line, i, key, c) {
            MatchAtComplete(line, i, key, c);
          }
        }
      }
      if i < |line| {
        assert SearchFrom(line, i, key) == SearchFrom(line, i + 1, key);
        s := SearchFromSpec(line, i + 1, key);
        if SearchFrom(line, i, key).None? {
          forall s', c | i <= s' <= |line| ensures !CaptureShape(line, s', key, c) {
            if s' > i {
              assert i + 1 <= s' <= |line|;
            }
          }
        } else {
          forall s', c | i <= s' < s ensures !CaptureShape(line, s', key, c) {
            if s' > i {
              assert i + 1 <= s' < s;
            }
          }
        }
      }
    }
  }

  /** A capture of `ACF_..._RE.search(line)` is MatchAt's at the leftmost
      position that holds a capture of the pattern's shape. */
  lemma CaptureSpec(line: string, key: string) returns (s: nat)
    ensures Capture(line, key).Some? ==>
      && s <= |line| && MatchAt(line, s, key) == Capture(line, key)
      && forall s', c :: 0 <= s' < s ==> !CaptureShape(line, s', key, c)
  {
    s := SearchFromSpec(line, 0, key);
    if Capture(line, key).Some? {
      assert CaptureShape(line, s, key, Capture(line, key).value);
    }
  }

  /** A manifest line as Steam writes it: `\t"key"\t\t"value"\n`. */
  function ManifestLine(key: string, value: string): string {
    "\t" + Quoted(key) + "\t\t\"" + value + "\"\n"
  }

  /** The matcher reads back every value Steam writes, including values
      that contain quotes (greedy `.+` stops at the last quote). */
  lemma CaptureManifestLine(key: string, value: string)
    requires value != [] && NoNewline(value)
    ensures Capture(ManifestLine(key, value), key) == Some(value)
  {
    var line := ManifestLine(key, value);
    assert MatchAt(line, 0, key).None? by {
      assert line[0] == '\t';
      if |line| >= |Quoted(key)| { assert line[..|Quoted(key)|][0] == '\t'; }
    }
    MatchManifestLine(key, value);
    assert SearchFrom(line, 1, key) == Some(value);
  }

  lemma MatchManifestLine(key: string, value: string)
    requires value != [] && NoNewline(value)
    ensures MatchAt(ManifestLine(key, value), 1, key) == Some(value)
  {
    ManifestLineLayout(key, value);
  }

  /** Where the parts of a manifest line sit: the quoted key from
      position 1, two tabs, then the quoted value up to the newline. */
  lemma ManifestLineLayout(key: string, value: string)
    requires value != [] && NoNewline(value)
    ensures |ManifestLine(key, value)| == |Quoted(key)| + |value| + 6
    ensures ManifestLine(key, value)[1..1 + |Quoted(key)|] == Quoted(key)
    ensures SpaceRun(ManifestLine(key, value), 1 + |Quoted(key)|) == |Quoted(key)| + 3
    ensures ManifestLine(key, value)[|Quoted(key)| + 3] == '"'
    ensures LineEnd(ManifestLine(key, value), |Quoted(key)| + 4) == |Quoted(key)| + |value| + 5
    ensures LastQuote(ManifestLine(key, value), |Quoted(key)| + 5, |Quoted(key)| + |value| + 5) == Some(|Quoted(key)| + |value| + 4)
    ensures ManifestLine(key, value)[|Quoted(key)| + 4..|Quoted(key)| + |value| + 4] == value
  {
    var line := ManifestLine(key, value);
    var q := Quoted(key);
    assert line == ['\t'] + q + ['\t', '\t', '"'] + value + ['"', '\n'];
    assert line[1..1 + |q|] == q;
    var j := 1 + |q| + 2;
    assert line[1 + |q|] == '\t' && line[2 + |q|] == '\t' && line[j] == '"';
    assert SpaceRun(line, 2 + |q|) == j;
    assert SpaceRun(line, 1 + |q|) == j;
    var close := j + 1 + |value|;
    assert line[close] == '"' && line[close + 1] == '\n' && |line| == close + 2;
    assert forall t :: j + 1 <= t < close ==> line[t] == value[t - j - 1];
    LineEndAt(line, j + 1, close + 1);
    assert LastQuote(line, j + 2, close + 1) == Some(close);
    assert line[j + 1..close] == value;
  }

  lemma {:induction false} LineEndAt(line: string, from: nat, e: nat)
    requires from <= e < |line| && line[e] == '\n'
    requires forall t :: from <= t < e ==> line[t] != '\n'
    ensures LineEnd(line, from) == e
    decreases e - from
  {
    if from < e { LineEndAt(line, from + 1, e); }
  }

  // ---------------------------------------------------------------------
  // parse_acf: the first capture of each key over the manifest's lines.
  // ---------------------------------------------------------------------

  /** The capture of the first line that matches `key`, if any. */
  function FirstCapture(lines: seq<string>, key: string): (r: Option<string>)
    ensures r.Some? ==> r.value != []
  {
    if lines == [] then None
    else match FirstCapture(lines[..|lines| - 1], key)
      case Some(c) => Some(c)
      case None => Capture(lines[|lines| - 1], key)
  }

  /** The first-match rule, stated without reference to the fold: no
      capture means no line matches, and a capture comes from the earliest
      matching line. */
  lemma {:induction false} FirstCaptureNone(lines: seq<string>, key: string)
    ensures FirstCapture(lines, key).None? <==> forall i :: 0 <= i < |lines| ==> Capture(lines[i], key).None?
  {
    if lines != [] {
      var init := lines[..|lines| - 1];
      FirstCaptureNone(init, key);
      assert forall i :: 0 <= i < |init| ==> init[i] == lines[i];
    }
  }

  lemma {:induction false} FirstCaptureIsEarliest(lines: seq<string>, key: string) returns (i: nat)
    requires FirstCapture(lines, key).Some?
    ensures i < |lines| && Capture(lines[i], key) == FirstCapture(lines, key)
    ensures forall h :: 0 <= h < i ==> Capture(lines[h], key).None?
  {
    var init := lines[..|lines| - 1];
    assert forall h :: 0 <= h < |init| ==> init[h] == lines[h];
    if FirstCapture(init, key).Some? {
      i := FirstCaptureIsEarliest(init, key);
    } else {
      FirstCaptureNone(init, key);
      i := |lines| - 1;
    }
  }

  /** Lines after the first match never change the result; a manifest
      with no match in its first part is read from the rest. */
  lemma {:induction false} FirstCaptureAppend(a: seq<string>, b: seq<string>, key: string)
    ensures FirstCapture(a + b, key) ==
      if FirstCapture(a, key).Some? then FirstCapture(a, key) else FirstCapture(b, key)
    decreases |b|
  {
    if b == [] {
      assert a + b == a;
    } else {
      var b' := b[..|b| - 1];
      assert (a + b)[..|a + b| - 1] == a + b';
      FirstCaptureAppend(a, b', key);
    }
  }

  /** Python's truthiness of an optional string: None and "" are false. */
  predicate Found(s: Option<string>) {
    s.Some? && s.value != []
  }

  /** `parse_acf`: the name and install directory of a manifest, each the
      capture of the first line matching its pattern, None when no line
      matches. */
  method ParseAcf(lines: seq<string>) returns (name: Option<string>, installDir: Option<string>)
    ensures name == FirstCapture(lines, NameKey)
    ensures installDir == FirstCapture(lines, InstallDirKey)
  {
    name, installDir := None, None;
    var i := 0;
    while i < |lines|
      invariant 0 <= i <= |lines|
      invariant name == FirstCapture(lines[..i], NameKey)
      invariant installDir == FirstCapture(lines[..i], InstallDirKey)
    {
      assert lines[..i + 1][..i] == lines[..i];
      if !Found(name) {
        var m := Capture(lines[i], NameKey);
        if m.Some? {
          name := m;
        }
      }
      if !Found(installDir) {
        var m := Capture(lines[i], InstallDirKey);
        if m.Some? {
          installDir := m;
        }
      }
      i := i + 1;
    }
    assert lines[..i] == lines;
  }

  // ---------------------------------------------------------------------
  // scan_steam_games: manifests -> catalog.
  // ---------------------------------------------------------------------

  /** A file of the game's directory tree as `os.walk` reports it. */
  datatype WalkedFile = WalkedFile(dir: string, fileName: string)

  /** An entry of `os.listdir(steamapps)`; `lines` is None when opening it
      raises. */
  datatype ManifestFile = ManifestFile(fileName: string, lines: Option<seq<string>>)

  /** What the scanner can observe of a Steam installation:
      whether `steamapps` is a directory, its entries in listing order,
      and, for every install directory name whose `common/<name>` is a
      directory, the files `os.walk` yields beneath it in walk order. */
  datatype SteamLibrary = SteamLibrary(
    hasSteamapps: bool,
    entries: seq<ManifestFile>,
    gameDirs: map<string, seq<WalkedFile>>)

  /** The catalog, or the manifest whose `open` raised and ended the scan. */
  datatype ScanResult = Scanned(games: map<string, GameInfo>) | ReadFailed(fileName: string)

  const ManifestPrefix: string := "appmanifest_"
  const ManifestSuffix: string := ".acf"

  /** The app id of a manifest file name, None when the name does not have
      the manifest shape. Both substrings are removed wherever they occur,
      as `str.replace` does. */
  function ManifestAppId(fileName: string): Option<string> {
    if StartsWith(fileName, ManifestPrefix) && EndsWith(fileName, ManifestSuffix) then
      Some(RemoveAll(RemoveAll(fileName, ManifestPrefix), ManifestSuffix))
    else None
  }

  /** The app id of a manifest Steam names `appmanifest_<digits>.acf` is
      the digits. */
  lemma ManifestAppIdOfDigits(digits: string)
    requires forall t :: 0 <= t < |digits| ==> '0' <= digits[t] <= '9'
    ensures ManifestAppId(ManifestPrefix + digits + ManifestSuffix) == Some(digits)
  {
    var f := ManifestPrefix + digits + ManifestSuffix;
    assert f[..|ManifestPrefix|] == ManifestPrefix;
    assert f[|f| - |ManifestSuffix|..] == ManifestSuffix;
    assert f == ManifestPrefix + (digits + ManifestSuffix);
    assert RemoveAll(f, ManifestPrefix) == RemoveAll(digits + ManifestSuffix, ManifestPrefix) by {
      assert f[..|ManifestPrefix|] == ManifestPrefix;
      assert f[|ManifestPrefix|..] == digits + ManifestSuffix;
    }
    assert '_' !in digits + ManifestSuffix by {
      assert forall t :: 0 <= t < |digits + ManifestSuffix| ==> (digits + ManifestSuffix)[t] != '_';
    }
    assert ManifestPrefix[11] == '_';
    RemoveAllAbsent(digits + ManifestSuffix, ManifestPrefix, '_');
    assert '.' !in digits;
    RemoveAllTrailing(digits, ManifestSuffix);
  }

  /** The catalog key of a walked file: its lower-cased name, when that
      ends in `.exe` and is not blacklisted. */
  function ExeKey(fileName: string): (k: Option<string>)
    ensures k.Some? <==> EndsWith(Lower(fileName), ".exe") && Lower(fileName) !in ExeBlacklist
    ensures k.Some? ==> k.value == Lower(fileName) && IsLower(k.value)
  {
    var l := Lower(fileName);
    LowerIsLower(fileName);
    if EndsWith(l, ".exe") && l !in ExeBlacklist then Some(l) else None
  }

  /** `os.path.join(dir, name)` on Windows, for a plain file name. */
  function JoinPath(dir: string, name: string): string {
    if dir != [] && (dir[|dir| - 1] == '\\' || dir[|dir| - 1] == '/') then dir + name
    else dir + "\\" + name
  }

  /** The inner loop: every walked file that passes the filters is
      written into the catalog, later files overwriting earlier ones. */
  function AddExes(acc: map<string, GameInfo>, name: string, appId: string, files: seq<WalkedFile>)
    : map<string, GameInfo>
  {
    if files == [] then acc
    else
      var acc' := AddExes(acc, name, appId, files[..|files| - 1]);
      var w := files[|files| - 1];
      match ExeKey(w.fileName)
      case None => acc'
      case Some(k) => acc'[k := GameInfo(name, appId, JoinPath(w.dir, w.fileName))]
  }

  /** A key no walked file maps to keeps its earlier entry (or absence). */
  lemma {:induction false} AddExesUntouched(acc: map<string, GameInfo>, name: string, appId: string,
                                            files: seq<WalkedFile>, k: string)
    requires forall i :: 0 <= i < |files| ==> ExeKey(files[i].fileName) != Some(k)
    ensures k in AddExes(acc, name, appId, files) <==> k in acc
    ensures k in acc ==> AddExes(acc, name, appId, files)[k] == acc[k]
  {
    if files != [] {
      var init := files[..|files| - 1];
      assert forall i :: 0 <= i < |init| ==> init[i] == files[i];
      AddExesUntouched(acc, name, appId, init, k);
    }
  }

  /** Last write wins: a key holds the entry of the LAST walked file that
      maps to it. */
  lemma {:induction false} AddExesLastWrite(acc: map<string, GameInfo>, name: string, appId: string,
                                            files: seq<WalkedFile>, k: string, i: nat)
    requires i < |files| && ExeKey(files[i].fileName) == Some(k)
    requires forall h :: i < h < |files| ==> ExeKey(files[h].fileName) != Some(k)
    ensures k in AddExes(acc, name, appId, files)
    ensures AddExes(acc, name, appId, files)[k] == GameInfo(name, appId, JoinPath(files[i].dir, files[i].fileName))
  {
    var init := files[..|files| - 1];
    assert forall h :: 0 <= h < |init| ==> init[h] == files[h];
    if i < |files| - 1 {
      AddExesLastWrite(acc, name, appId, init, k, i);
    }
  }

  /** The outer loop's body for one listing entry. */
  function ManifestStep(lib: SteamLibrary, acc: map<string, GameInfo>, m: ManifestFile): ScanResult {
    match ManifestAppId(m.fileName)
    case None => Scanned(acc)
    case Some(appId) =>
      match m.lines
      case None => ReadFailed(m.fileName)
      case Some(lines) =>
        var name := FirstCapture(lines, NameKey);
        var dir := FirstCapture(lines, InstallDirKey);
        if !Found(name) || !Found(dir) || dir.value !in lib.gameDirs then Scanned(acc)
        else Scanned(AddExes(acc, name.value, appId, lib.gameDirs[dir.value]))
  }

  function CatalogFrom(lib: SteamLibrary, entries: seq<ManifestFile>): ScanResult {
    if entries == [] then Scanned(map[])
    else match CatalogFrom(lib, entries[..|entries| - 1])
      case ReadFailed(f) => ReadFailed(f)
      case Scanned(acc) => ManifestStep(lib, acc, entries[|entries| - 1])
  }

  /** The catalog `scan_steam_games` returns (or the failure it raises). */
  function Catalog(lib: SteamLibrary): ScanResult {
    if !lib.hasSteamapps then Scanned(map[]) else CatalogFrom(lib, lib.entries)
  }

  /** Walked file `w` of manifest `m` yields catalog key `k` with value
      `info`. */
  ghost predicate Contributes(lib: SteamLibrary, m: ManifestFile, w: WalkedFile, k: string, info: GameInfo) {
    ManifestAppId(m.fileName).Some? && m.lines.Some? &&
    var name := FirstCapture(m.lines.value, NameKey);
    var dir := FirstCapture(m.lines.value, InstallDirKey);
    && name.Some? && dir.Some? && dir.value in lib.gameDirs
    && w in lib.gameDirs[dir.value]
    && ExeKey(w.fileName) == Some(k)
    && info == GameInfo(name.value, ManifestAppId(m.fileName).value, JoinPath(w.dir, w.fileName))
  }

  /** The walked files only add keys. */
  lemma {:induction false} AddExesGrows(acc: map<string, GameInfo>, name: string, appId: string, files: seq<WalkedFile>)
    ensures acc.Keys <= AddExes(acc, name, appId, files).Keys
  {
    if files != [] {
      AddExesGrows(acc, name, appId, files[..|files| - 1]);
    }
  }

  /** Every walked file that passes the filters has its key in the result. */
  lemma {:induction false} AddExesCovers(acc: map<string, GameInfo>, name: string, appId: string,
                                         files: seq<WalkedFile>, i: nat)
    requires i < |files| && ExeKey(files[i].fileName).Some?
    ensures ExeKey(files[i].fileName).value in AddExes(acc, name, appId, files)
  {
    var init := files[..|files| - 1];
    if i < |files| - 1 {
      assert init[i] == files[i];
      AddExesCovers(acc, name, appId, init, i);
    }
  }

  /** Where an entry of the result comes from: the accumulator it
      started with, or a walked file with that key. */
  lemma {:induction false} AddExesSource(acc: map<string, GameInfo>, name: string, appId: string,
                                         files: seq<WalkedFile>, k: string) returns (src: Option<nat>)
    requires k in AddExes(acc, name, appId, files)
    ensures src.None? ==> k in acc && AddExes(acc, name, appId, files)[k] == acc[k]
    ensures src.None? ==> forall h :: 0 <= h < |files| ==> ExeKey(files[h].fileName) != Some(k)
    ensures src.Some? ==>
      && src.value < |files| && ExeKey(files[src.value].fileName) == Some(k)
      && AddExes(acc, name, appId, files)[k] == GameInfo(name, appId, JoinPath(files[src.value].dir, files[src.value].fileName))
      && forall h :: src.value < h < |files| ==> ExeKey(files[h].fileName) != Some(k)
  {
    if files == [] {
      return None;
    }
    var init := files[..|files| - 1];
    if ExeKey(files[|files| - 1].fileName) == Some(k) {
      return Some(|files| - 1);
    }
    src := AddExesSource(acc, name, appId, init, k);
    assert forall h :: 0 <= h < |init| ==> init[h] == files[h];
    if src.None? {
      AddExesUntouched(acc, name, appId, files, k);
    }
  }

  /** The files the walk of manifest `m` yields: those of its install
      directory when the manifest names the game and an install directory
      that exists, none otherwise. */
  ghost function ManifestWalk(lib: SteamLibrary, m: ManifestFile): seq<WalkedFile> {
    if ManifestAppId(m.fileName).Some? && m.lines.Some? &&
       Found(FirstCapture(m.lines.value, NameKey)) && Found(FirstCapture(m.lines.value, InstallDirKey)) &&
       FirstCapture(m.lines.value, InstallDirKey).value in lib.gameDirs
    then lib.gameDirs[FirstCapture(m.lines.value, InstallDirKey).value]
    else []
  }

  /** Every entry of the scanned catalog comes from the LAST walked file
      that yields its key, in listing-then-walk order: file `i` of the walk
      of manifest `j` yields the key and the value (the manifest's name,
      its app id and the file's path), no later file of that walk yields
      the key, and no later manifest contributes it at all. */
  lemma {:induction false} CatalogFromSource(lib: SteamLibrary, entries: seq<ManifestFile>, k: string)
    returns (j: nat, w: WalkedFile, i: nat)
    requires CatalogFrom(lib, entries).Scanned? && k in CatalogFrom(lib, entries).games
    ensures j < |entries| && Contributes(lib, entries[j], w, k, CatalogFrom(lib, entries).games[k])
    ensures i < |ManifestWalk(lib, entries[j])| && ManifestWalk(lib, entries[j])[i] == w
    ensures forall h :: i < h < |ManifestWalk(lib, entries[j])| ==>
      ExeKey(ManifestWalk(lib, entries[j])[h].fileName) != Some(k)
    ensures forall j', w', info' :: j < j' < |entries| ==> !Contributes(lib, entries[j'], w', k, info')
  {
    var init := entries[..|entries| - 1];
    var m := entries[|entries| - 1];
    var acc := CatalogFrom(lib, init).games;
    var files := ManifestWalk(lib, m);
    if files != [] {
      var name := FirstCapture(m.lines.value, NameKey);
      var src := AddExesSource(acc, name.value, ManifestAppId(m.fileName).value, files, k);
      if src.Some? {
        assert files[src.value] in files;
        return |entries| - 1, files[src.value], src.value;
      }
    }
    assert forall w', info' :: !Contributes(lib, m, w', k, info') by {
      forall w', info' ensures !Contributes(lib, m, w', k, info') {
      }
    }
    j, w, i := CatalogFromSource(lib, init, k);
    assert init[j] == entries[j];
    forall j', w', info' | j < j' < |entries| ensures !Contributes(lib, entries[j'], w', k, info') {
      if j' < |entries| - 1 {
        assert init[j'] == entries[j'];
      }
    }
  }

  /** Every catalog key is a lower-cased `.exe` file name outside the
      blacklist. */
  lemma CatalogKeyShape(lib: SteamLibrary, k: string)
    requires Catalog(lib).Scanned? && k in Catalog(lib).games
    ensures IsLower(k) && EndsWith(k, ".exe") && k !in ExeBlacklist
  {
    var j, w, i := CatalogFromSource(lib, lib.entries, k);
  }

  /** Every walked file a listed manifest contributes has its key in the
      scanned catalog (which file's value it holds is CatalogFromSource's
      last-write rule). */
  lemma {:induction false} CatalogFromComplete(lib: SteamLibrary, entries: seq<ManifestFile>, j: nat,
                                               w: WalkedFile, k: string, info: GameInfo)
    requires CatalogFrom(lib, entries).Scanned? && j < |entries| && Contributes(lib, entries[j], w, k, info)
    ensures k in CatalogFrom(lib, entries).games
  {
    var init := entries[..|entries| - 1];
    var m := entries[|entries| - 1];
    var acc := CatalogFrom(lib, init).games;
    var appId := ManifestAppId(m.fileName);
    if j < |entries| - 1 {
      assert init[j] == entries[j];
      CatalogFromComplete(lib, init, j, w, k, info);
    } else {
      var files := lib.gameDirs[FirstCapture(m.lines.value, InstallDirKey).value];
      var i :| 0 <= i < |files| && files[i] == w;
      AddExesCovers(acc, FirstCapture(m.lines.value, NameKey).value, appId.value, files, i);
      return;
    }
    if appId.Some? && m.lines.Some? {
      var name := FirstCapture(m.lines.value, NameKey);
      var dir := FirstCapture(m.lines.value, InstallDirKey);
      if Found(name) && Found(dir) && dir.value in lib.gameDirs {
        AddExesGrows(acc, name.value, appId.value, lib.gameDirs[dir.value]);
      }
    }
  }

  /** `scan_steam_games` without a steamapps directory is empty, and
      otherwise its catalog holds exactly the keys the listed manifests
      contribute. */
  lemma CatalogSpec(lib: SteamLibrary, k: string)
    requires Catalog(lib).Scanned?
    ensures !lib.hasSteamapps ==> Catalog(lib).games == map[]
    ensures lib.hasSteamapps ==>
      (k in Catalog(lib).games <==>
       exists j, w, info :: 0 <= j < |lib.entries| && Contributes(lib, lib.entries[j], w, k, info))
  {
    if lib.hasSteamapps {
      if k in Catalog(lib).games {
        var j, w, i := CatalogFromSource(lib, lib.entries, k);
      }
      if exists j, w, info :: 0 <= j < |lib.entries| && Contributes(lib, lib.entries[j], w, k, info) {
        var j, w, info :| 0 <= j < |lib.entries| && Contributes(lib, lib.entries[j], w, k, info);
        CatalogFromComplete(lib, lib.entries, j, w, k, info);
      }
    }
  }

  /** `scan_steam_games`: builds the catalog in nested loops over the
      listing and over each game's walked files. */
  method ScanSteamGames(lib: SteamLibrary) returns (r: ScanResult)
    ensures r == Catalog(lib)
  {
    var games: map<string, GameInfo> := map[];
    if !lib.hasSteamapps {
      return Scanned(games);
    }
    var entries := lib.entries;
    var i := 0;
    while i < |entries|
      invariant 0 <= i <= |entries|
      invariant CatalogFrom(lib, entries[..i]) == Scanned(games)
    {
      var m := entries[i];
      assert entries[..i + 1][..i] == entries[..i];
      var appId := ManifestAppId(m.fileName);
      if appId.None? {
        i := i + 1;
        continue;
      }
      if m.lines.None? {
        r := ReadFailed(m.fileName);
        assert CatalogFrom(lib, entries[..i + 1]) == r;
        CatalogFailureSticks(lib, entries, i + 1);
        return;
      }
      var name, dir := ParseAcf(m.lines.value);
      if !Found(name) || !Found(dir) {
        i := i + 1;
        continue;
      }
      if dir.value !in lib.gameDirs {
        i := i + 1;
        continue;
      }
      var files := lib.gameDirs[dir.value];
      ghost var before := games;
      var j := 0;
      while j < |files|
        invariant 0 <= j <= |files|
        invariant games == AddExes(before, name.value, appId.value, files[..j])
      {
        assert files[..j + 1][..j] == files[..j];
        var w := files[j];
        var key := ExeKey(w.fileName);
        if key.Some? {
          games := games[key.value := GameInfo(name.value, appId.value, JoinPath(w.dir, w.fileName))];
        }
        j := j + 1;
      }
      assert files[..j] == files;
      i := i + 1;
    }
    assert entries[..i] == entries;
    r := Scanned(games);
  }

  /** Once a manifest cannot be opened, the scan's result is that failure. */
  lemma {:induction false} CatalogFailureSticks(lib: SteamLibrary, entries: seq<ManifestFile>, n: nat)
    requires n <= |entries| && CatalogFrom(lib, entries[..n]).ReadFailed?
    ensures CatalogFrom(lib, entries) == CatalogFrom(lib, entries[..n])
    decreases |entries| - n
  {
    if n < |entries| {
      assert entries[..n + 1][..n] == entries[..n];
      CatalogFailureSticks(lib, entries, n + 1);
    } else {
      assert entries[..n] == entries;
    }
  }
}
