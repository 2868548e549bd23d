/**
 * The second generation's persistence layer: a most-recent-first list of
 * searched city names under `recents_v1`, and a per-city cache of weather
 * cards under `weather_cache_v1`. The key-value store holds text; here each
 * key holds the outcome of parsing that text, or nothing.
 */
module WeatherCache {
  import opened Wrappers
  import opened Text

  /** `MAX_RECENTS`: the recents list never holds more names than this. */
  const MaxRecents := 8

  /** `WeatherCardData`: the display strings of one card. */
  datatype WeatherCardData = WeatherCardData(
    city: string,
    condition: string,
    temp: string,
    humidity: string,
    wind: string,
    feelsLike: string)

  /** An element of a parsed array, or a value of a parsed object. */
  datatype Value = Null | Str(s: string) | Card(card: WeatherCardData) | OtherValue

  /**
   * What `JSON.parse` makes of a stored text: it throws, or yields a value
   * that is not an array nor an object (with its truthiness), an array, or
   * an object with its own keys.
   */
  datatype Blob =
    | Unparseable
    | Scalar(truthy: bool)
    | List(items: seq<Value>)
    | Dict(entries: map<string, Value>)

  // ---- Recents ----

  /** `arr.filter((x) => typeof x === "string")`. */
  function StringsOf(items: seq<Value>): (r: seq<string>)
    ensures |r| <= |items|
    ensures forall s :: s in r <==> Str(s) in items
  {
    if items == [] then []
    else if items[0].Str? then [items[0].s] + StringsOf(items[1..])
    else StringsOf(items[1..])
  }

  /** `loadRecents()` on what is stored: nothing, or a text that is falsy, unparseable or not an array, gives []. */
  function RecentsFrom(stored: Option<Blob>): (r: seq<string>)
    ensures forall s :: s in r <==> stored.Some? && stored.value.List? && Str(s) in stored.value.items
  {
    match stored
    case Some(List(items)) => StringsOf(items)
    case _ => []
  }

  /** The stored form of `JSON.stringify(list)` for a list of names. */
  function Strs(list: seq<string>): (r: seq<Value>)
    ensures |r| == |list|
    ensures forall k :: 0 <= k < |list| ==> r[k] == Str(list[k])
  {
    if list == [] then [] else [Str(list[0])] + Strs(list[1..])
  }

  function RecentsBlob(list: seq<string>): Option<Blob> {
    Some(List(Strs(list)))
  }

  /** `current.filter((c) => c.toLowerCase() !== clean.toLowerCase())`. */
  function RemoveMatches(xs: seq<string>, clean: string): (r: seq<string>)
    ensures |r| <= |xs|
    ensures forall x :: x in r <==> x in xs && !SameIgnoringCase(x, clean)
  {
    if xs == [] then []
    else if SameIgnoringCase(xs[0], clean) then RemoveMatches(xs[1..], clean)
    else [xs[0]] + RemoveMatches(xs[1..], clean)
  }

  /** `[clean, ...filtered].slice(0, MAX_RECENTS)`. */
  function NextRecents(current: seq<string>, clean: string): (r: seq<string>)
    ensures 1 <= |r| <= MaxRecents && r[0] == clean
  {
    var l := [clean] + RemoveMatches(current, clean);
    l[..Min(MaxRecents, |l|)]
  }

  /** `a` can be obtained from `b` by deleting elements: the order of `b` is kept. */
  predicate Subsequence<T(==)>(a: seq<T>, b: seq<T>)
    decreases |b|
  {
    a == [] || (b != [] && if a[0] == b[0] then Subsequence(a[1..], b[1..]) else Subsequence(a, b[1..]))
  }

  // ---- Weather cache ----

  /** `city.trim().toLowerCase()`: the key a card is stored under; it is empty exactly for a blank name. */
  function CacheKey(city: string): (r: string)
    ensures r == "" <==> IsBlank(city)
  {
    Lower(Trim(city))
  }

  /** What one `saveWeatherToCache` call does to the stored cache. */
  datatype SaveEffect = NoWrite | Write(blob: Blob) | Throws

  /**
   * `saveWeatherToCache(data)` on what is stored. A blank key writes nothing.
   * A missing, unparseable or falsy value starts from `{}`. Assigning a key
   * on a truthy primitive throws in strict mode, before any write. An array
   * is written back as it was, since `JSON.stringify` drops non-index keys.
   */
  function SaveOutcome(stored: Option<Blob>, data: WeatherCardData): (r: SaveEffect)
    ensures r == NoWrite <==> IsBlank(data.city)
    ensures r == Throws <==> !IsBlank(data.city) && stored == Some(Scalar(true))
    ensures r.Write? && r.blob.Dict? ==> CacheKey(data.city) in r.blob.entries && r.blob.entries[CacheKey(data.city)] == Card(data)
  {
    var key := CacheKey(data.city);
    if key == "" then NoWrite
    else match stored
      case None => Write(Dict(map[key := Card(data)]))
      case Some(Unparseable) => Write(Dict(map[key := Card(data)]))
      case Some(Scalar(truthy)) => if truthy then Throws else Write(Dict(map[key := Card(data)]))
      case Some(List(items)) => Write(List(items))
      case Some(Dict(m)) => Write(Dict(m[key := Card(data)]))
  }

  /** The stored cache after a save; a throwing or blank save leaves it as it was. */
  function CacheAfterSave(stored: Option<Blob>, data: WeatherCardData): (r: Option<Blob>)
    ensures IsBlank(data.city) ==> r == stored
    ensures r != stored ==> r.Some? && (r.value.Dict? || r.value.List?)
  {
    match SaveOutcome(stored, data)
    case Write(blob) => Some(blob)
    case _ => stored
  }

  /** `loadWeatherFromCache(city)`: `map?.[key] ?? null`, a blank key or a parse failure read as null. */
  function LookupCache(stored: Option<Blob>, city: string): (r: Option<Value>)
    ensures r != Some(Null)
    ensures IsBlank(city) ==> r == None
    ensures r.Some? ==> && stored.Some? && stored.value.Dict? && CacheKey(city) in stored.value.entries
                        && stored.value.entries[CacheKey(city)] == r.value
  {
    var key := CacheKey(city);
    if key == "" then None
    else match stored
      case Some(Dict(m)) => if key in m && m[key] != Null then Some(m[key]) else None
      case _ => None
  }

  /** The persisted store: the two keys the module uses. */
  class Storage {
    var recents: Option<Blob>
    var cache: Option<Blob>

    constructor(recents0: Option<Blob>, cache0: Option<Blob>)
      ensures recents == recents0 && cache == cache0
    {
      recents := recents0;
      cache := cache0;
    }

    /** `loadRecents()` */
    method LoadRecents() returns (r: seq<string>)
      ensures r == RecentsFrom(recents)
      ensures forall s :: s in r <==> recents.Some? && recents.value.List? && Str(s) in recents.value.items
    {
      if recents.None? {
        return [];
      }
      match recents.value
      case List(items) =>
        r := StringsOf(items);
      case _ =>
        r := [];
    }

    /** `addRecent(city)` */
    method AddRecent(city: string) returns (r: seq<string>)
      modifies this
      ensures IsBlank(city) ==> r == RecentsFrom(old(recents)) && recents == old(recents)
      ensures !IsBlank(city) ==> r == NextRecents(RecentsFrom(old(recents)), Trim(city)) && recents == RecentsBlob(r)
      ensures cache == old(cache)
    {
      var clean := Trim(city);
      if clean == "" {
        r := LoadRecents();
        return;
      }
      var current := LoadRecents();
      r := NextRecents(current, clean);
      recents := RecentsBlob(r);
    }

    /** `clearRecents()` */
    method ClearRecents()
      modifies this
      ensures recents == None && cache == old(cache)
    {
      recents := None;
    }

    /** `saveWeatherToCache(data)`; `failed` is a rejected promise. */
    method SaveWeatherToCache(data: WeatherCardData) returns (failed: bool)
      modifies this
      ensures failed <==> SaveOutcome(old(cache), data).Throws?
      ensures cache == CacheAfterSave(old(cache), data)
      ensures recents == old(recents)
    {
      var key := CacheKey(data.city);
      failed := false;
      if key == "" {
        return;
      }
      var m: map<string, Value> := map[];
      if cache.Some? {
        match cache.value
        case Dict(entries) =>
          m := entries;
        case List(items) =>
          // a key set on an array is not part of its JSON text
          cache := Some(List(items));
          return;
        case Scalar(truthy) =>
          if truthy {
            failed := true;
            return;
          }
        case Unparseable =>
      }
      m := m[key := Card(data)];
      cache := Some(Dict(m));
    }

    /** `loadWeatherFromCache(city)` */
    method LoadWeatherFromCache(city: string) returns (r: Option<Value>)
      ensures r == LookupCache(cache, city)
      ensures r.Some? ==> r.value != Null && cache.Some? && cache.value.Dict? && CacheKey(city) in cache.value.entries
    {
      var key := CacheKey(city);
      if key == "" || cache.None? {
        return None;
      }
      match cache.value
      case Dict(m) =>
        if key in m && m[key] != Null {
          r := Some(m[key]);
        } else {
          r := None;
        }
      case _ =>
        r := None;
    }
  }

  // ---- Properties of the recents list ----

  /** Writing a list and reading it back gives the same list. */
  lemma {:induction false} RecentsRoundTrip(list: seq<string>)
    ensures RecentsFrom(RecentsBlob(list)) == list
  {
    StringsOfStrs(list);
  }

  lemma {:induction false} StringsOfStrs(list: seq<string>)
    ensures StringsOf(Strs(list)) == list
  {
    if list != [] {
      assert Strs(list)[1..] == Strs(list[1..]);
      StringsOfStrs(list[1..]);
    }
  }

  /** Nothing stored (also after `clearRecents`), an unparseable text and a non-array all load as []. */
  lemma LoadRecentsEmpty(b: bool, m: map<string, Value>)
    ensures RecentsFrom(None) == []
    ensures RecentsFrom(Some(Unparseable)) == []
    ensures RecentsFrom(Some(Scalar(b))) == []
    ensures RecentsFrom(Some(Dict(m))) == []
  {
  }

  /** The string elements are kept in their stored order. */
  lemma {:induction false} StringsOfOrdered(items: seq<Value>)
    ensures Subsequence(Strs(StringsOf(items)), items)
  {
    if items != [] {
      StringsOfOrdered(items[1..]);
      if items[0].Str? {
        var rest := StringsOf(items[1..]);
        assert Strs([items[0].s] + rest)[1..] == Strs(rest);
      } else {
        SubsequenceSkip(Strs(StringsOf(items[1..])), items);
      }
    }
  }

  /** Every string element is kept as many times as it is stored. */
  lemma {:induction false} StringsOfCounts(items: seq<Value>)
    ensures forall s :: multiset(StringsOf(items))[s] == multiset(items)[Str(s)]
  {
    if items != [] {
      StringsOfCounts(items[1..]);
      assert items == [items[0]] + items[1..];
      var rest := StringsOf(items[1..]);
      if items[0].Str? {
        assert StringsOf(items) == [items[0].s] + rest;
      }
    }
  }

  /** Putting an element in front of the longer sequence keeps a subsequence. */
  lemma {:induction false} SubsequenceSkip<T>(a: seq<T>, b: seq<T>)
    requires b != [] && Subsequence(a, b[1..])
    ensures Subsequence(a, b)
    decreases |b|, 1
  {
    if a != [] && a[0] == b[0] {
      SubsequenceDrop(a, b[1..]);
    }
  }

  /** Dropping the first element of a subsequence keeps it a subsequence. */
  lemma {:induction false} SubsequenceDrop<T>(a: seq<T>, c: seq<T>)
    requires a != [] && Subsequence(a, c)
    ensures Subsequence(a[1..], c)
    decreases |c| + 1, 0
  {
    if a[0] != c[0] {
      SubsequenceDrop(a, c[1..]);
    }
    SubsequenceSkip(a[1..], c);
  }

  lemma SubsequencePrefix<T>(a: seq<T>, b: seq<T>, n: nat)
    requires Subsequence(a, b) && n <= |a|
    ensures Subsequence(a[..n], b)
    decreases |b|
  {
    if n > 0 {
      if a[0] == b[0] {
        SubsequencePrefix(a[1..], b[1..], n - 1);
        assert a[..n][1..] == a[1..][..n - 1];
      } else {
        SubsequencePrefix(a, b[1..], n);
      }
    }
  }

  /** Every entry not equal to the name up to case is kept as many times as it is stored; the others are gone. */
  lemma {:induction false} RemoveMatchesCounts(xs: seq<string>, clean: string)
    ensures forall x :: multiset(RemoveMatches(xs, clean))[x] == if SameIgnoringCase(x, clean) then 0 else multiset(xs)[x]
  {
    if xs != [] {
      RemoveMatchesCounts(xs[1..], clean);
      assert xs == [xs[0]] + xs[1..];
      var rest := RemoveMatches(xs[1..], clean);
      if !SameIgnoringCase(xs[0], clean) {
        assert RemoveMatches(xs, clean) == [xs[0]] + rest;
      }
    }
  }

  /** The filter keeps the order of the stored list. */
  lemma {:induction false} RemoveMatchesOrdered(xs: seq<string>, clean: string)
    ensures Subsequence(RemoveMatches(xs, clean), xs)
  {
    if xs != [] {
      RemoveMatchesOrdered(xs[1..], clean);
      if SameIgnoringCase(xs[0], clean) {
        SubsequenceSkip(RemoveMatches(xs[1..], clean), xs);
      } else {
        assert RemoveMatches(xs, clean)[1..] == RemoveMatches(xs[1..], clean);
      }
    }
  }

  /** A list without a match passes the filter untouched. */
  lemma {:induction false} RemoveMatchesNone(xs: seq<string>, clean: string)
    requires !ContainsIgnoringCase(xs, clean)
    ensures RemoveMatches(xs, clean) == xs
  {
    if xs != [] {
      assert !SameIgnoringCase(xs[0], clean);
      assert !ContainsIgnoringCase(xs[1..], clean) by {
        forall k | 0 <= k < |xs| - 1
          ensures !SameIgnoringCase(xs[1..][k], clean)
        {
          assert xs[1..][k] == xs[k + 1];
        }
      }
      RemoveMatchesNone(xs[1..], clean);
    }
  }

  /** In a list without duplicates up to case, a name that is present is removed exactly once. */
  lemma {:induction false} RemoveMatchesOne(xs: seq<string>, clean: string)
    requires NoCaseDup(xs) && ContainsIgnoringCase(xs, clean)
    ensures |RemoveMatches(xs, clean)| == |xs| - 1
  {
    assert NoCaseDup(xs[1..]) by {
      forall i, j | 0 <= i < j < |xs| - 1
        ensures !SameIgnoringCase(xs[1..][i], xs[1..][j])
      {
        assert xs[1..][i] == xs[i + 1] && xs[1..][j] == xs[j + 1];
      }
    }
    if SameIgnoringCase(xs[0], clean) {
      assert !ContainsIgnoringCase(xs[1..], clean) by {
        forall k | 0 <= k < |xs| - 1
          ensures !SameIgnoringCase(xs[1..][k], clean)
        {
          assert xs[1..][k] == xs[k + 1];
          assert !SameIgnoringCase(xs[0], xs[k + 1]);
        }
      }
      RemoveMatchesNone(xs[1..], clean);
    } else {
      var k :| 0 <= k < |xs| && SameIgnoringCase(xs[k], clean);
      assert xs[1..][k - 1] == xs[k];
      RemoveMatchesOne(xs[1..], clean);
    }
  }

  /** The filter keeps a duplicate-free list duplicate-free. */
  lemma {:induction false} RemoveMatchesNoDup(xs: seq<string>, clean: string)
    requires NoCaseDup(xs)
    ensures NoCaseDup(RemoveMatches(xs, clean))
  {
    if xs != [] {
      var tail := xs[1..];
      assert NoCaseDup(tail) by {
        forall i, j | 0 <= i < j < |tail|
          ensures !SameIgnoringCase(tail[i], tail[j])
        {
          assert tail[i] == xs[i + 1] && tail[j] == xs[j + 1];
        }
      }
      RemoveMatchesNoDup(tail, clean);
      if !SameIgnoringCase(xs[0], clean) {
        var rest := RemoveMatches(tail, clean);
        assert !ContainsIgnoringCase(rest, xs[0]) by {
          forall k | 0 <= k < |rest|
            ensures !SameIgnoringCase(rest[k], xs[0])
          {
            assert rest[k] in tail;
            var j :| 0 <= j < |tail| && tail[j] == rest[k];
            assert xs[j + 1] == rest[k];
          }
        }
        NoCaseDupCons(xs[0], rest);
      }
    }
  }

  /**
   * `addRecent` puts the trimmed name first and follows it with a prefix of
   * the stored list, in stored order, without any entry equal to it up to
   * case; the list never exceeds `MAX_RECENTS`.
   */
  lemma NextRecentsShape(current: seq<string>, clean: string)
    ensures var r := NextRecents(current, clean);
      && 1 <= |r| <= MaxRecents && r[0] == clean
      && r[1..] == RemoveMatches(current, clean)[..|r| - 1]
      && (forall k :: 1 <= k < |r| ==> !SameIgnoringCase(r[k], clean))
      && Subsequence(r[1..], current)
  {
    var f := RemoveMatches(current, clean);
    var r := NextRecents(current, clean);
    assert r[1..] == f[..|r| - 1];
    forall k | 1 <= k < |r|
      ensures !SameIgnoringCase(r[k], clean)
    {
      assert r[k] == f[k - 1];
      assert r[k] in f;
    }
    RemoveMatchesOrdered(current, clean);
    SubsequencePrefix(f, current, |r| - 1);
  }

  /** A duplicate-free stored list stays duplicate-free after `addRecent`. */
  lemma NextRecentsNoDup(current: seq<string>, clean: string)
    requires NoCaseDup(current)
    ensures NoCaseDup(NextRecents(current, clean))
  {
    var f := RemoveMatches(current, clean);
    RemoveMatchesNoDup(current, clean);
    assert !ContainsIgnoringCase(f, clean) by {
      forall k | 0 <= k < |f|
        ensures !SameIgnoringCase(f[k], clean)
      {
        assert f[k] in f;
      }
    }
    NoCaseDupCons(clean, f);
    var l := [clean] + f;
    NoCaseDupPrefix(l, Min(MaxRecents, |l|));
  }

  /** Adding the same name a second time stores and returns the same list as adding it once. */
  lemma AddRecentTwice(stored: Option<Blob>, clean: string)
    ensures var once := NextRecents(RecentsFrom(stored), clean);
      NextRecents(RecentsFrom(RecentsBlob(once)), clean) == once
  {
    var once := NextRecents(RecentsFrom(stored), clean);
    RecentsRoundTrip(once);
    NextRecentsShape(RecentsFrom(stored), clean);
    var tail := once[1..];
    assert once == [clean] + tail;
    assert !ContainsIgnoringCase(tail, clean) by {
      forall k | 0 <= k < |tail|
        ensures !SameIgnoringCase(tail[k], clean)
      {
        assert tail[k] == once[k + 1];
      }
    }
    RemoveMatchesNone(tail, clean);
    assert RemoveMatches(once, clean) == tail;
  }

  /** Re-adding a name already present, in a list without duplicates up to case, does not grow the list (that it comes first is `NextRecentsShape`). */
  lemma ReAddKeepsLength(current: seq<string>, clean: string)
    requires NoCaseDup(current) && ContainsIgnoringCase(current, clean)
    ensures |NextRecents(current, clean)| == Min(MaxRecents, |current|)
  {
    RemoveMatchesOne(current, clean);
  }

  /** A new name is put in front of the stored list, which loses its last entry once it is full. */
  lemma AddNewName(current: seq<string>, clean: string)
    requires !ContainsIgnoringCase(current, clean)
    ensures NextRecents(current, clean) == ([clean] + current)[..Min(MaxRecents, |current| + 1)]
    ensures |NextRecents(current, clean)| == Min(MaxRecents, |current| + 1)
  {
    RemoveMatchesNone(current, clean);
  }

  // ---- Properties of the weather cache ----

  /** Normalising a key twice changes nothing more. */
  lemma CacheKeyIdempotent(city: string)
    ensures CacheKey(CacheKey(city)) == CacheKey(city)
  {
    var t := Trim(city);
    TrimLowerCommute(t);
    TrimIdempotent(city);
    LowerIdempotent(t);
  }

  /** The key is also the lowercased name, trimmed: the two normalisations commute. */
  lemma CacheKeyTrimsLowered(city: string)
    ensures CacheKey(city) == Trim(Lower(city))
  {
    TrimLowerCommute(city);
  }

  /**
   * Saving a card and loading any name with the same key gives that card
   * back, unless the stored cache was an array or a truthy primitive.
   */
  lemma CacheRoundTrip(stored: Option<Blob>, data: WeatherCardData, city: string)
    requires CacheKey(city) == CacheKey(data.city) && CacheKey(city) != ""
    requires stored.Some? ==> !stored.value.List? && stored.value != Scalar(true)
    ensures LookupCache(CacheAfterSave(stored, data), city) == Some(Card(data))
  {
    var key := CacheKey(city);
    var m: map<string, Value> := if stored.Some? && stored.value.Dict? then stored.value.entries else map[];
    assert SaveOutcome(stored, data) == Write(Dict(m[key := Card(data)]));
  }

  /** Saving under an array keeps the array, and saving over a truthy primitive fails; either way the card cannot be loaded. */
  lemma CacheUnwritable(items: seq<Value>, data: WeatherCardData, city: string)
    ensures CacheAfterSave(Some(List(items)), data) == Some(List(items))
    ensures !IsBlank(data.city) ==> SaveOutcome(Some(Scalar(true)), data) == Throws
    ensures CacheAfterSave(Some(Scalar(true)), data) == Some(Scalar(true))
    ensures LookupCache(Some(List(items)), city) == None && LookupCache(Some(Scalar(true)), city) == None
  {
  }

  /** Saving one card leaves the lookup of every other key as it was. */
  lemma CacheOtherKeys(stored: Option<Blob>, data: WeatherCardData, city: string)
    requires CacheKey(city) != CacheKey(data.city)
    ensures LookupCache(CacheAfterSave(stored, data), city) == LookupCache(stored, city)
  {
  }

  /** A save over nothing, an unparseable text or a falsy value leaves only the new card. */
  lemma CacheFreshStart(stored: Option<Blob>, data: WeatherCardData)
    requires stored == None || stored == Some(Unparseable) || stored == Some(Scalar(false))
    requires !IsBlank(data.city)
    ensures CacheAfterSave(stored, data) == Some(Dict(map[CacheKey(data.city) := Card(data)]))
  {
  }

  /** A blank name is neither saved nor found. */
  lemma CacheBlank(stored: Option<Blob>, data: WeatherCardData, city: string)
    ensures IsBlank(data.city) ==> SaveOutcome(stored, data) == NoWrite && CacheAfterSave(stored, data) == stored
    ensures IsBlank(city) ==> LookupCache(stored, city) == None
  {
  }

  /** A card never saved, an empty store and an unparseable text all load as null. */
  lemma CacheMissing(m: map<string, Value>, city: string)
    ensures LookupCache(None, city) == None
    ensures LookupCache(Some(Unparseable), city) == None
    ensures CacheKey(city) !in m ==> LookupCache(Some(Dict(m)), city) == None
  {
  }
}
