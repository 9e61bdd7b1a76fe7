/** Small building blocks shared by every part of the model: an Option type,
    the string predicates Python's `str` offers, and insertion-ordered
    dictionaries (Python's `dict` keeps insertion order, and several results
    of the tracker depend on that order). */
module Common {

  datatype Option<+T> = None | Some(value: T)

  /** Python's `str.lower()`, restricted to ASCII letters. */
  function LowerChar(c: char): (r: char)
    ensures 'A' <= c <= 'Z' ==> r as int == c as int + 32
    ensures !('A' <= c <= 'Z') ==> r == c
  {
    if 'A' <= c <= 'Z' then (c as int + 32) as char else c
  }

  function Lower(s: string): (r: string)
    ensures |r| == |s|
    ensures forall i :: 0 <= i < |s| ==> r[i] == LowerChar(s[i])
  {
    if s == [] then [] else [LowerChar(s[0])] + Lower(s[1..])
  }

  predicate IsLower(s: string) {
    forall i :: 0 <= i < |s| ==> !('A' <= s[i] <= 'Z')
  }

  /** Lower-casing is idempotent, so a lower-cased name is its own key. */
  lemma LowerIsLower(s: string)
    ensures IsLower(Lower(s))
    ensures Lower(Lower(s)) == Lower(s)
  {
    var l := Lower(s);
    assert forall i :: 0 <= i < |l| ==> !('A' <= l[i] <= 'Z');
    assert Lower(l) == l;
  }

  predicate StartsWith(s: string, prefix: string) {
    |prefix| <= |s| && s[..|prefix|] == prefix
  }

  predicate EndsWith(s: string, suffix: string) {
    |suffix| <= |s| && s[|s| - |suffix|..] == suffix
  }

  /** Python's `s.replace(pat, "")`: every non-overlapping occurrence of
      `pat`, scanning left to right, is removed. */
  function RemoveAll(s: string, pat: string): (r: string)
    requires pat != []
    ensures |r| <= |s|
    decreases |s|
  {
    if |s| < |pat| then s
    else if s[..|pat|] == pat then RemoveAll(s[|pat|..], pat)
    else [s[0]] + RemoveAll(s[1..], pat)
  }

  /** A string in which some character of `pat` never occurs holds no
      occurrence of `pat`, and removing `pat` leaves it as it is. */
  lemma {:induction false} RemoveAllAbsent(s: string, pat: string, c: char)
    requires pat != [] && c in pat && c !in s
    ensures RemoveAll(s, pat) == s
    decreases |s|
  {
    if |s| >= |pat| {
      assert s[..|pat|] != pat by {
        var k :| 0 <= k < |pat| && pat[k] == c;
        assert s[..|pat|][k] == s[k];
      }
      RemoveAllAbsent(s[1..], pat, c);
      assert [s[0]] + s[1..] == s;
    }
  }

  /** Removing `pat` from `d + pat`, where `d` never contains the first
      character of `pat`, leaves exactly `d`. */
  lemma {:induction false} RemoveAllTrailing(d: string, pat: string)
    requires pat != [] && pat[0] !in d
    ensures RemoveAll(d + pat, pat) == d
    decreases |d|
  {
    var s := d + pat;
    if d == [] {
      assert s[..|pat|] == pat;
      assert s[|pat|..] == [];
    } else {
      assert s[..|pat|] != pat by { assert s[0] == d[0]; }
      assert s[1..] == d[1..] + pat;
      RemoveAllTrailing(d[1..], pat);
      assert [d[0]] + d[1..] == d;
    }
  }

  /** Regrouping appended event logs (used where a method's log is the
      old log followed by an effect's events). */
  lemma Concat3<T>(a: seq<T>, b: seq<T>, c: seq<T>)
    ensures a + b + c == a + (b + c)
  {
  }

  lemma Concat4<T>(a: seq<T>, b: seq<T>, c: seq<T>, d: seq<T>)
    ensures a + b + c + d == a + (b + c + d)
  {
  }

  // ---------------------------------------------------------------------
  // Insertion-ordered dictionaries: a Python dict as its item list.
  // ---------------------------------------------------------------------

  type Dict<V> = seq<(string, V)>

  function KeysOf<V>(d: Dict<V>): (ks: set<string>)
    ensures forall i :: 0 <= i < |d| ==> d[i].0 in ks
  {
    if d == [] then {} else {d[0].0} + KeysOf(d[1..])
  }

  /** Every key comes from some item. */
  lemma {:induction false} KeyIndex<V>(d: Dict<V>, k: string) returns (i: nat)
    requires k in KeysOf(d)
    ensures i < |d| && d[i].0 == k
  {
    if d[0].0 == k {
      i := 0;
    } else {
      var j := KeyIndex(d[1..], k);
      i := j + 1;
    }
  }

  lemma {:induction false} KeysOfAppend<V>(a: Dict<V>, b: Dict<V>)
    ensures KeysOf(a + b) == KeysOf(a) + KeysOf(b)
  {
    if a != [] {
      assert (a + b)[0] == a[0];
      assert (a + b)[1..] == a[1..] + b;
      KeysOfAppend(a[1..], b);
      assert KeysOf(a + b) == {a[0].0} + KeysOf(a[1..] + b);
    } else {
      assert a + b == b;
    }
  }

  /** `d.get(k)`: the value stored under the first occurrence of `k`. */
  function Lookup<V>(d: Dict<V>, k: string): (r: Option<V>)
    ensures r.None? <==> k !in KeysOf(d)
    ensures r.Some? ==> exists i :: 0 <= i < |d| && d[i] == (k, r.value)
  {
    if d == [] then None
    else if d[0].0 == k then Some(d[0].1)
    else Lookup(d[1..], k)
  }

  /** `d[k] = v`: overwrites the value in place when `k` is present (the
      key keeps its position), and appends a new item otherwise. */
  function Put<V>(d: Dict<V>, k: string, v: V): (r: Dict<V>)
    ensures Lookup(r, k) == Some(v)
    ensures forall k' :: k' != k ==> Lookup(r, k') == Lookup(d, k')
    ensures KeysOf(r) == KeysOf(d) + {k}
    ensures k !in KeysOf(d) ==> r == d + [(k, v)]
  {
    if d == [] then [(k, v)]
    else if d[0].0 == k then [(k, v)] + d[1..]
    else [d[0]] + Put(d[1..], k, v)
  }

  /** Overwriting a present key keeps every key in its position. */
  lemma {:induction false} PutInPlace<V>(d: Dict<V>, k: string, v: V)
    requires k in KeysOf(d)
    ensures |Put(d, k, v)| == |d|
    ensures forall i :: 0 <= i < |d| ==> Put(d, k, v)[i].0 == d[i].0
  {
    if d[0].0 != k {
      PutInPlace(d[1..], k, v);
      var r := Put(d, k, v);
      assert r == [d[0]] + Put(d[1..], k, v);
      forall i | 0 <= i < |d| ensures r[i].0 == d[i].0 {
        if i > 0 {
          assert r[i] == Put(d[1..], k, v)[i - 1];
        }
      }
    }
  }

  predicate DistinctKeys<V>(d: Dict<V>) {
    forall i, j :: 0 <= i < j < |d| ==> d[i].0 != d[j].0
  }

  /** The entries whose key is not in `gone`, in their order. */
  function Without<V>(d: Dict<V>, gone: set<string>): (r: Dict<V>)
    ensures KeysOf(r) == KeysOf(d) - gone
    ensures forall e :: e in r ==> e in d
  {
    if d == [] then []
    else if d[0].0 in gone then Without(d[1..], gone)
    else [d[0]] + Without(d[1..], gone)
  }

  lemma {:induction false} WithoutDistinct<V>(d: Dict<V>, gone: set<string>)
    requires DistinctKeys(d)
    ensures DistinctKeys(Without(d, gone))
  {
    if d != [] {
      WithoutDistinct(d[1..], gone);
      var r := Without(d[1..], gone);
      if d[0].0 !in gone {
        forall i | 0 <= i < |r| ensures r[i].0 != d[0].0 {
          assert r[i] in d[1..];
          var j :| 0 <= j < |d[1..]| && d[1..][j] == r[i];
          assert d[j + 1] == r[i];
        }
        NotInKeys(r, d[0].0);
        DistinctCons(d[0], r);
      }
    }
  }

  lemma DistinctCons<V>(e: (string, V), d: Dict<V>)
    requires DistinctKeys(d) && e.0 !in KeysOf(d)
    ensures DistinctKeys([e] + d)
  {
    var r := [e] + d;
    forall i, j | 0 <= i < j < |r| ensures r[i].0 != r[j].0 {
      if i > 0 {
        assert r[i] == d[i - 1] && r[j] == d[j - 1];
      } else {
        assert r[j] == d[j - 1];
      }
    }
  }

  /** In a dict with distinct keys, a key other than the last one's is
      not the last key. */
  lemma DistinctLast<V>(d: Dict<V>)
    requires DistinctKeys(d) && d != []
    ensures d[|d| - 1].0 !in KeysOf(d[..|d| - 1])
  {
    NotInKeys(d[..|d| - 1], d[|d| - 1].0);
  }

  lemma {:induction false} NotInKeys<V>(d: Dict<V>, k: string)
    requires forall i :: 0 <= i < |d| ==> d[i].0 != k
    ensures k !in KeysOf(d)
  {
    if d != [] {
      NotInKeys(d[1..], k);
    }
  }

  lemma DistinctSnoc<V>(d: Dict<V>, e: (string, V))
    ensures DistinctKeys(d) && e.0 !in KeysOf(d) ==> DistinctKeys(d + [e])
  {
  }

  /** `d.get(k, default)`. */
  function GetOr<V>(d: Dict<V>, k: string, default: V): V {
    match Lookup(d, k)
    case Some(v) => v
    case None => default
  }
}
