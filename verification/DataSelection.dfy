/**
 Selecting the data of a destination Secret (helpers/template.go, helpers/secrets.go): field
 filters by regular expressions, rendered templates, and the raw response.  Matching a
 pattern is a function that fails on a pattern that does not compile; Go's map iteration
 order is an arbitrary choice.
 */
module DataSelection {
  import opened Results

  type Bytes = seq<bv8>

  const KEY_RAW: string := "_raw"

  /** Whether a pattern matches a key, or None when the pattern does not compile. */
  type Matcher = (string, string) -> Option<bool>

  datatype Filters = Filters(excludes: seq<string>, includes: seq<string>)

  datatype DataError = ContainsRaw | BadPattern | MarshalError

  ghost predicate ValidPatterns(pats: seq<string>, m: Matcher) {
    forall i, k :: 0 <= i < |pats| ==> m(pats[i], k).Some?
  }

  /** Some pattern matches the key. */
  ghost predicate Matches(pats: seq<string>, k: string, m: Matcher) {
    exists i :: 0 <= i < |pats| && m(pats[i], k) == Some(true)
  }

  /** The patterns are tried in order; the first match or the first bad pattern decides. */
  function Scan(pats: seq<string>, k: string, m: Matcher): Option<bool> {
    if pats == [] then Some(false)
    else
      match m(pats[0], k)
      case None => None
      case Some(true) => Some(true)
      case Some(false) => Scan(pats[1..], k, m)
  }

  method MatchAny(pats: seq<string>, k: string, m: Matcher) returns (r: Option<bool>)
    ensures r == Scan(pats, k, m)
  {
    for i := 0 to |pats|
      invariant Scan(pats, k, m) == Scan(pats[i..], k, m)
    {
      var matched := m(pats[i], k);
      if matched != Some(false) {
        return matched;
      }
    }
    return Some(false);
  }

  /** With valid patterns only the set of patterns matters, not their order. */
  lemma {:induction false} ScanFindsMatch(pats: seq<string>, k: string, m: Matcher)
    requires ValidPatterns(pats, m)
    ensures Scan(pats, k, m) == Some(Matches(pats, k, m))
  {
    if pats != [] {
      var rest := pats[1..];
      assert forall i :: 0 <= i < |rest| ==> rest[i] == pats[i + 1];
      ScanFindsMatch(rest, k, m);
      if Matches(rest, k, m) {
        var i :| 0 <= i < |rest| && m(rest[i], k) == Some(true);
        assert m(pats[i + 1], k) == Some(true);
      }
    }
  }

  ghost predicate AllScan(keys: set<string>, pats: seq<string>, m: Matcher) {
    forall k :: k in keys ==> Scan(pats, k, m).Some?
  }

  /** The keys of `d` whose scan gives `wanted`. */
  ghost function Kept<V>(d: map<string, V>, pats: seq<string>, wanted: bool, m: Matcher): map<string, V> {
    map k | k in d && Scan(pats, k, m) == Some(wanted) :: d[k]
  }

  /** The first call of `filter` in `filterData`: copies what no exclude matches. */
  method Exclude<V>(d: map<string, V>, pats: seq<string>, m: Matcher) returns (r: Option<map<string, V>>)
    ensures r.Some? <==> AllScan(d.Keys, pats, m)
    ensures r.Some? ==> r.value == Kept(d, pats, false, m)
  {
    var kept: map<string, V> := map[];
    var todo := d.Keys;
    while todo != {}
      invariant todo <= d.Keys && AllScan(d.Keys - todo, pats, m)
      invariant kept == map k | k in d && k !in todo && Scan(pats, k, m) == Some(false) :: d[k]
      decreases |todo|
    {
      var k :| k in todo;
      todo := todo - {k};
      var matched := MatchAny(pats, k, m);
      if matched.None? {
        return None;
      }
      if !matched.value {
        kept := kept[k := d[k]];
      }
    }
    return Some(kept);
  }

  /** The second call of `filter`: deletes from the map it walks whatever no include matches. */
  method Include<V>(d: map<string, V>, pats: seq<string>, m: Matcher) returns (r: Option<map<string, V>>)
    ensures r.Some? <==> AllScan(d.Keys, pats, m)
    ensures r.Some? ==> r.value == Kept(d, pats, true, m)
  {
    var kept := d;
    var todo := d.Keys;
    while todo != {}
      invariant todo <= d.Keys && AllScan(d.Keys - todo, pats, m)
      invariant kept == map k | k in d && (k in todo || Scan(pats, k, m) == Some(true)) :: d[k]
      decreases |todo|
    {
      var k :| k in todo;
      todo := todo - {k};
      var matched := MatchAny(pats, k, m);
      if matched.None? {
        return None;
      }
      if !matched.value {
        kept := kept - {k};
      }
    }
    return Some(kept);
  }

  /** A field passes: no exclude matches it and, if there are includes, one of them does. */
  ghost predicate Selected(f: Filters, k: string, m: Matcher) {
    !Matches(f.excludes, k, m) && (f.includes == [] || Matches(f.includes, k, m))
  }

  /** The same as the code decides it, pattern by pattern. */
  predicate Passes(f: Filters, k: string, m: Matcher) {
    Scan(f.excludes, k, m) == Some(false) && (f.includes == [] || Scan(f.includes, k, m) == Some(true))
  }

  /** A bad pattern is met: on some field by the excludes, or by the includes on a field that got past them. */
  ghost predicate MeetsBadPattern<V>(f: Filters, d: map<string, V>, m: Matcher) {
    || !AllScan(d.Keys, f.excludes, m)
    || (f.includes != [] && !AllScan(Kept(d, f.excludes, false, m).Keys, f.includes, m))
  }

  /** With patterns that compile, selection is a property of the key alone and never fails. */
  lemma ValidPatternsDecide<V>(f: Filters, d: map<string, V>, m: Matcher)
    requires ValidPatterns(f.excludes, m) && ValidPatterns(f.includes, m)
    ensures !MeetsBadPattern(f, d, m)
    ensures forall k :: Passes(f, k, m) <==> Selected(f, k, m)
  {
    forall k
      ensures Scan(f.excludes, k, m) == Some(Matches(f.excludes, k, m))
      ensures Scan(f.includes, k, m) == Some(Matches(f.includes, k, m))
    {
      ScanFindsMatch(f.excludes, k, m);
      ScanFindsMatch(f.includes, k, m);
    }
  }

  /** `filterData`. */
  method FilterData<V>(f: Filters, d: map<string, V>, m: Matcher) returns (r: Option<map<string, V>>)
    ensures r.None? <==> MeetsBadPattern(f, d, m)
    ensures r.Some? ==> forall k :: k in r.value <==> k in d && Passes(f, k, m)
    ensures r.Some? ==> forall k :: k in r.value ==> r.value[k] == d[k]
  {
    if f.excludes == [] && f.includes == [] {
      return Some(d);
    }
    var kept := d;
    if f.excludes != [] {
      r := Exclude(d, f.excludes, m);
      if r.None? {
        return None;
      }
      kept := r.value;
    } else {
      assert Kept(d, f.excludes, false, m) == d;
    }
    if f.includes == [] {
      return Some(kept);
    }
    r := Include(kept, f.includes, m);
  }

  /** Where a key of the result may come from: the raw response, a template, or a selected source field. */
  ghost function Source<V>(
    secretData: map<string, V>, extraData: map<string, Bytes>, raw: Bytes, excludeRaw: bool,
    f: Filters, m: Matcher, marshal: V -> Option<Bytes>, k: string): Option<Bytes>
  {
    if !excludeRaw && k == KEY_RAW then Some(raw)
    else if k in extraData then Some(extraData[k])
    else if k in secretData && Passes(f, k, m) then marshal(secretData[k])
    else None
  }

  /**
   The raw response is there unless it is excluded; a rendered template is there under its name and
   wins over a source field; a source field is there exactly when no exclude matches it and, if
   there are includes, one does; and nothing else is.
   */
  lemma SourceMeans<V>(
    secretData: map<string, V>, extraData: map<string, Bytes>, raw: Bytes, excludeRaw: bool,
    f: Filters, m: Matcher, marshal: V -> Option<Bytes>, k: string)
    requires ValidPatterns(f.excludes, m) && ValidPatterns(f.includes, m)
    requires !RawConflict(secretData, extraData, excludeRaw)
    ensures var s := Source(secretData, extraData, raw, excludeRaw, f, m, marshal, k);
      var excluded := exists i :: 0 <= i < |f.excludes| && m(f.excludes[i], k) == Some(true);
      var included := |f.includes| == 0 || exists i :: 0 <= i < |f.includes| && m(f.includes[i], k) == Some(true);
      && (k == "_raw" && !excludeRaw ==> s == Some(raw))
      && (k in extraData ==> s == Some(extraData[k]))
      && (k in secretData && k !in extraData && !excluded && included ==> s == marshal(secretData[k]))
      && (!(k == "_raw" && !excludeRaw) && k !in extraData && (k !in secretData || excluded || !included) ==> s.None?)
  {
    ValidPatternsDecide(f, secretData, m);
  }

  /** A conflict with the raw response is one of its name, where it is not excluded. */
  lemma RawConflictIff<V>(secretData: map<string, V>, extraData: map<string, Bytes>, excludeRaw: bool)
    ensures RawConflict(secretData, extraData, excludeRaw) <==>
      !excludeRaw && ("_raw" in secretData || "_raw" in extraData)
  {
  }

  /** A selected source field that is needed but cannot be marshalled. */
  ghost predicate Unmarshallable<V>(
    secretData: map<string, V>, extraData: map<string, Bytes>, excludeRaw: bool,
    f: Filters, m: Matcher, marshal: V -> Option<Bytes>)
  {
    exists k ::
      && k in secretData && Passes(f, k, m) && k !in extraData && !(k == KEY_RAW && !excludeRaw)
      && marshal(secretData[k]).None?
  }

  predicate RawConflict<V>(secretData: map<string, V>, extraData: map<string, Bytes>, excludeRaw: bool) {
    !excludeRaw && (KEY_RAW in secretData || KEY_RAW in extraData)
  }

  /**
   `makeK8sData`.  The outcome is fixed key by key, whatever the order in which the maps are
   walked: nothing appears that has no source, and nothing that has one is lost.
   */
  method MakeK8sData<V>(
    secretData: map<string, V>, extraData: map<string, Bytes>, raw: Bytes, excludeRaw: bool,
    f: Filters, m: Matcher, marshal: V -> Option<Bytes>)
    returns (r: Result<map<string, Bytes>, DataError>)
    ensures r == Err(ContainsRaw) <==> RawConflict(secretData, extraData, excludeRaw)
    ensures r == Err(BadPattern) <==>
      !RawConflict(secretData, extraData, excludeRaw) && MeetsBadPattern(f, secretData, m)
    ensures r == Err(MarshalError) <==>
      && !RawConflict(secretData, extraData, excludeRaw) && !MeetsBadPattern(f, secretData, m)
      && Unmarshallable(secretData, extraData, excludeRaw, f, m, marshal)
    ensures r.Ok? ==> forall k ::
      var s := Source(secretData, extraData, raw, excludeRaw, f, m, marshal, k);
      (k in r.value <==> s.Some?) && (k in r.value ==> Some(r.value[k]) == s)
  {
    var data: map<string, Bytes> := map[];
    if !excludeRaw {
      if KEY_RAW in secretData || KEY_RAW in extraData {
        return Err(ContainsRaw);
      }
      data := data[KEY_RAW := raw];
    }
    data := data + extraData;
    var filtered := FilterData(f, secretData, m);
    if filtered.None? {
      return Err(BadPattern);
    }
    var added := AddFields(data, filtered.value, marshal);
    if added.None? {
      return Err(MarshalError);
    }
    return Ok(added.value);
  }

  /** Includes the fields that are not already there. */
  method AddFields<K(==), V, B>(base: map<K, B>, fields: map<K, V>, marshal: V -> Option<B>)
    returns (r: Option<map<K, B>>)
    ensures r.None? <==> exists k :: k in fields && k !in base && marshal(fields[k]).None?
    ensures r.Some? ==> forall k :: k in r.value <==> k in base || k in fields
    ensures r.Some? ==> forall k :: k in base ==> r.value[k] == base[k]
    ensures r.Some? ==> forall k :: k in fields && k !in base ==> marshal(fields[k]) == Some(r.value[k])
  {
    var data := base;
    var todo := fields.Keys;
    while todo != {}
      invariant todo <= fields.Keys
      invariant forall k :: k in base ==> k in data && data[k] == base[k]
      invariant forall k :: k in data ==> k in base || k in fields
      invariant forall k :: k in fields && k !in base && k !in todo ==>
        k in data && marshal(fields[k]) == Some(data[k])
      invariant forall k :: k in todo && k !in base ==> k !in data
      decreases todo
    {
      var k :| k in todo;
      todo := todo - {k};
      if k !in data {
        var b := marshal(fields[k]);
        if b.None? {
          return None;
        }
        data := data[k := b.value];
      }
    }
    return Some(data);
  }
}
