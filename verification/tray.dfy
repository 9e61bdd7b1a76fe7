/** `get_today_ranking` of tray.py: today's records of the data file,
    sorted by total, as (display name, formatted time) pairs. */
module Tray {
  import opened Common
  import opened JsonDoc
  import opened Utils
  import opened Sorting

  /** A record whose total is a Python number. */
  predicate NumericTotal(info: Json) {
    HasTotal(info) && NumericValue(TotalField(info)).Some?
  }

  /** The sort key `x[1]["total"]` as a number (records it cannot order
      never reach a comparison, so they read as 0). */
  function RankKey(item: (string, Json)): (k: int)
    ensures NumericTotal(item.1) ==> Some(k) == NumericValue(TotalField(item.1))
  {
    if NumericTotal(item.1) then NumericValue(TotalField(item.1)).value else 0
  }

  /** The sort raises: the key function fails on a record that is not an
      object holding "total", and once two records are compared a total
      that is not a number cannot be ordered against the others. */
  predicate SortRaises(items: Dict<Json>) {
    || (exists i :: 0 <= i < |items| && !HasTotal(items[i].1))
    || (|items| >= 2 && exists i :: 0 <= i < |items| && !NumericTotal(items[i].1))
  }

  /** Today's records in the order they are emitted, or None when
      `get_today_ranking` raises. A missing, unreadable, blank or
      malformed file gives no records; text that is not UTF-8 raises,
      because the decoding error is not one of the two exceptions
      caught. The text is stripped before it is parsed, so a padded
      document is read like a clean one. A document that is not an
      object, or a today's entry that is not one, raises on `.get` and
      `.items()`. */
  function RankedItems(f: DataFile, today: string): (r: Option<Dict<Json>>)
  {
    match f
    case Missing => Some([])
    case Unreadable => Some([])
    case Undecodable => None
    case Unparsable => Some([])
    case Parsed(_) | Padded(_) =>
      var doc := f.doc;
      if !doc.JObj? then None
      else
        var bucket := FieldOr(doc.fields, today);
        var items := if today in KeysOf(doc.fields) then bucket else JObj([]);
        if !items.JObj? || SortRaises(items.fields) then None
        else Some(SortDesc(items.fields, RankKey))
  }

  /** Today's bucket, when the document has one. */
  function TodayItems(doc: Json, today: string): Dict<Json>
    requires doc.JObj?
  {
    var bucket := FieldOr(doc.fields, today);
    if bucket.JObj? then bucket.fields else []
  }

  /** The ranking holds today's records, each once, in non-increasing
      order of total; records with equal totals keep their order in the
      file. */
  lemma RankedItemsOrder(f: DataFile, today: string)
    requires RankedItems(f, today).Some? && (f.Parsed? || f.Padded?)
    ensures multiset(RankedItems(f, today).value) == multiset(TodayItems(f.doc, today))
    ensures forall i, j :: 0 <= i < j < |RankedItems(f, today).value| ==>
      RankKey(RankedItems(f, today).value[i]) >= RankKey(RankedItems(f, today).value[j])
    ensures forall k :: WithKey(RankedItems(f, today).value, RankKey, k) == WithKey(TodayItems(f.doc, today), RankKey, k)
  {
    var doc := f.doc;
    if today in KeysOf(doc.fields) {
      SortDescSpec(TodayItems(doc, today), RankKey);
    } else {
      assert Lookup(doc.fields, today).None?;
    }
  }

  /** Every ranked record is an object holding "total", and the totals
      compared are numbers. */
  lemma RankedItemsHasTotal(f: DataFile, today: string)
    requires RankedItems(f, today).Some?
    ensures forall e :: e in RankedItems(f, today).value ==> HasTotal(e.1)
    ensures |RankedItems(f, today).value| >= 2 ==>
      forall e :: e in RankedItems(f, today).value ==> NumericTotal(e.1)
  {
    if (f.Parsed? || f.Padded?) && today in KeysOf(f.doc.fields) {
      var items := TodayItems(f.doc, today);
      SortDescSpec(items, RankKey);
      var r := RankedItems(f, today).value;
      forall e | e in r ensures HasTotal(e.1) && (|r| >= 2 ==> NumericTotal(e.1)) {
        assert e in multiset(r);
        var i :| 0 <= i < |items| && items[i] == e;
      }
    }
  }

  /** When every record of today's bucket is an object holding a
      numeric total, the ranking has one entry per record. */
  lemma RankedItemsComplete(doc: Json, today: string)
    requires doc.JObj? && today in KeysOf(doc.fields) && FieldOr(doc.fields, today).JObj?
    requires forall i :: 0 <= i < |FieldOr(doc.fields, today).fields| ==>
      NumericTotal(FieldOr(doc.fields, today).fields[i].1)
    ensures RankedItems(Parsed(doc), today).Some?
    ensures |RankedItems(Parsed(doc), today).value| == |FieldOr(doc.fields, today).fields|
  {
  }

  /** One record that cannot be keyed makes the whole ranking raise,
      although the loop would have skipped it. */
  lemma RankedItemsUnkeyed(doc: Json, today: string, i: nat)
    requires doc.JObj? && today in KeysOf(doc.fields) && FieldOr(doc.fields, today).JObj?
    requires i < |FieldOr(doc.fields, today).fields| && !HasTotal(FieldOr(doc.fields, today).fields[i].1)
    ensures RankedItems(Parsed(doc), today).None?
  {
  }

  /** A file that yields no document, or a document without a bucket
      for today, ranks nothing. */
  lemma RankedItemsEmpty(f: DataFile, today: string)
    requires f.Missing? || f.Unreadable? || f.Unparsable? ||
      ((f.Parsed? || f.Padded?) && f.doc.JObj? && today !in KeysOf(f.doc.fields))
    ensures RankedItems(f, today) == Some([])
  {
  }

  /** After a `_save` that failed part-way, the tray ranks nothing when
      the file was cut between characters, and raises when it was cut
      inside one: `read_text` then fails with a decoding error, which is
      neither of the two exceptions caught. */
  lemma RankedItemsAfterFailedSave(f: DataFile, doc: Json, today: string)
    ensures RankedItems(Saved(f, doc, WriteFailed(false)), today) == Some([])
    ensures RankedItems(Saved(f, doc, WriteFailed(true)), today).None?
  {
  }

  /** `get_today_ranking` strips the text before parsing it, while
      `_load` does not: a document padded with whitespace that only
      `str.strip()` removes is ranked like the clean document, although
      the watcher loads `{}` from it. */
  lemma RankedItemsPadded(doc: Json, today: string)
    ensures RankedItems(Padded(doc), today) == RankedItems(Parsed(doc), today)
    ensures Load(Padded(doc)) == EmptyDoc && Load(Parsed(doc)) == doc
  {
  }

  /** The loop of `get_today_ranking` over the sorted records: each
      record that is an object holding "total" becomes its display name
      and its formatted total. */
  method FormatEntries(items: Dict<Json>) returns (ranking: seq<(string, string)>)
    requires forall e :: e in items ==> HasTotal(e.1)
    ensures |ranking| == |items|
    ensures forall i :: 0 <= i < |items| ==> ranking[i] == (items[i].0, FormatValue(TotalField(items[i].1)))
  {
    ranking := [];
    var i := 0;
    while i < |items|
      invariant 0 <= i <= |items|
      invariant |ranking| == i
      invariant forall k :: 0 <= k < i ==> ranking[k] == (items[k].0, FormatValue(TotalField(items[k].1)))
    {
      var (name, info) := items[i];
      assert items[i] in items;
      if HasTotal(info) {
        ranking := ranking + [(name, FormatValue(TotalField(info)))];
      }
      i := i + 1;
    }
  }

  /** `get_today_ranking`: the ranked records, each as its display name
      and its formatted total; None is an exception escaping. */
  method GetTodayRanking(f: DataFile, today: string) returns (r: Option<seq<(string, string)>>)
    ensures r.None? <==> RankedItems(f, today).None?
    ensures r.Some? ==> |r.value| == |RankedItems(f, today).value|
    ensures r.Some? ==> forall i :: 0 <= i < |r.value| ==>
      HasTotal(RankedItems(f, today).value[i].1) &&
      r.value[i] == (RankedItems(f, today).value[i].0, FormatValue(TotalField(RankedItems(f, today).value[i].1)))
  {
    var ranked := RankedItems(f, today);
    if ranked.None? {
      return None;
    }
    RankedItemsHasTotal(f, today);
    var ranking := FormatEntries(ranked.value);
    r := Some(ranking);
  }
}
