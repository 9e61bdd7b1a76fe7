/** The playtime document as Python sees it after `json.loads`, and the
    data file it is read from. The document is shaped
    date -> game display name -> {"total", "last_open", "last_close"},
    but nothing stops a hand-edited file from holding other shapes, so the
    model keeps every JSON value. */
module JsonDoc {
  import opened Common

  /** A JSON value. Objects keep their keys in file order, as Python dicts
      do. */
  datatype Json =
    | JNull
    | JBool(b: bool)
    | JInt(n: int)
    | JStr(s: string)
    | JArr(items: seq<Json>)
    | JObj(fields: Dict<Json>)

  /** The value of a Python `+=` on an integer field: Python's `bool` is a
      subclass of `int`, so `true` counts as 1; every other value makes
      the addition raise. */
  function NumericValue(j: Json): (r: Option<int>)
    ensures r.Some? <==> j.JInt? || j.JBool?
    ensures j.JInt? ==> r == Some(j.n)
    ensures j.JBool? ==> r == Some(if j.b then 1 else 0)
  {
    match j
    case JInt(n) => Some(n)
    case JBool(b) => Some(if b then 1 else 0)
    case _ => None
  }

  /** `obj.get(key)`: a missing key reads as `None`, written JNull here. */
  function FieldOr(fields: Dict<Json>, key: string): Json {
    GetOr(fields, key, JNull)
  }

  /** A game record whose `"total"` can be read: an object holding that
      key. */
  predicate HasTotal(info: Json) {
    info.JObj? && "total" in KeysOf(info.fields)
  }

  function TotalField(info: Json): (t: Json)
    requires HasTotal(info)
    ensures Lookup(info.fields, "total") == Some(t)
  {
    Lookup(info.fields, "total").value
  }

  /** The state of `data/playtime.json` on disk. Text that is empty,
      blank or not JSON is `Unparsable`; bytes that are not UTF-8 are
      `Undecodable`; a file that exists but cannot be read (permissions,
      a directory in its place) is `Unreadable`. `Padded(doc)` is the
      text of `doc` with leading or trailing whitespace that `str.strip()`
      removes but JSON does not allow (a no-break space, a form feed):
      `json.loads` rejects it as it stands, and accepts it once stripped. */
  datatype DataFile =
    | Missing
    | Unreadable
    | Undecodable
    | Unparsable
    | Padded(doc: Json)
    | Parsed(doc: Json)

  const EmptyDoc: Json := JObj([])

  /** `ProcessWatcher._load`: the parsed document, or the empty document
      whenever reading or parsing fails. It never raises. */
  function Load(f: DataFile): (doc: Json)
    ensures f.Parsed? ==> doc == f.doc
    ensures !f.Parsed? ==> doc == EmptyDoc
  {
    if f.Parsed? then f.doc else EmptyDoc
  }

  /** How one `_save` ends. `Path.write_text` opens the file in mode
      'w', which empties it, and then writes the text. A failure to open
      (no permission, a directory in the file's place) leaves the file as
      it was. A failure after that (a full disk, or a lone surrogate in
      the document that the UTF-8 encoder rejects) leaves it empty or cut
      short; `inChar` says the cut fell inside a multi-byte character,
      which leaves bytes that are not UTF-8. */
  datatype SaveOutcome = Written | OpenFailed | WriteFailed(inChar: bool)

  /** The file after `ProcessWatcher._save(doc)`: the whole document when
      the write succeeds, the previous file when the open fails, and a
      file that yields no JSON document when the write fails part-way, so
      that the next `_load` reads `{}`: an emptied file or an object cut
      before its closing brace, or bytes that are not UTF-8 when the cut
      fell inside a character. */
  function Saved(f: DataFile, doc: Json, save: SaveOutcome): (r: DataFile)
    ensures save.Written? ==> Load(r) == doc
    ensures save.OpenFailed? ==> r == f
    ensures save.WriteFailed? ==> !r.Parsed? && !r.Padded? && Load(r) == EmptyDoc
    ensures save.WriteFailed? ==> (r.Undecodable? <==> save.inChar)
  {
    match save
    case Written => Parsed(doc)
    case OpenFailed => f
    case WriteFailed(inChar) => if inChar then Undecodable else Unparsable
  }

  /** The file after the watcher's constructor: an empty document is
      written only when no file exists. */
  function Initialized(f: DataFile): (r: DataFile)
    ensures f != Missing ==> r == f
    ensures f == Missing ==> r == Parsed(EmptyDoc)
  {
    if f == Missing then Parsed(EmptyDoc) else f
  }

  /** Initialising twice is the same as initialising once: a restart never
      replaces existing content with `{}`. */
  lemma InitializedIdempotent(f: DataFile)
    ensures Initialized(Initialized(f)) == Initialized(f)
  {
  }
}
