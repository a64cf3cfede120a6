/** The bounded memo in front of the VTIMEZONE builder: keyed by zone and start year, evicting the
    oldest insertion.
 */
module ZoneCache {
  import opened ColonKeys
  import opened Decimals
  import opened ZoneTransitions
  import opened ZoneTable

  const LIMIT: nat := 32

  /** The zone data of the runtime: an offset function per zone, the local year of an instant, and
      date formatting. */
  datatype Zones = Zones(offset: string -> OffsetFunction, year: (string, int) -> nat, stamp: Stamp)

  datatype Call = Call(zone: string, eventStart: int)

  /** The component built from scratch. */
  function Rebuild(zones: Zones, zone: string, startYear: nat): seq<string> {
    ZoneLines(zone, zones.offset(zone), startYear, zones.stamp)
  }

  /** What a call means, cache or no cache. */
  function Uncached(zones: Zones, call: Call): seq<string> {
    if call.zone == "UTC" then [] else Rebuild(zones, call.zone, zones.year(call.zone, call.eventStart))
  }

  function CacheKey(zone: string, startYear: nat): string { zone + ":" + Decimal(startYear) }

  /** Different zones or years never share a key, whatever characters the zone name has. */
  lemma KeysNeverCollide(zone: string, year: nat, zone': string, year': nat)
    ensures CacheKey(zone, year) == CacheKey(zone', year') ==> zone == zone' && year == year'
  {
    if CacheKey(zone, year) == CacheKey(zone', year') {
      DecimalRoundTrip(year);
      DecimalRoundTrip(year');
      LastColon(zone, Decimal(year), zone', Decimal(year'));
    }
  }

  // ---------- the cache as a value ----------

  /** `keys` is the insertion order of the map. */
  datatype Cache = Cache(keys: seq<string>, entries: map<string, seq<string>>)

  const EMPTY := Cache([], map[])

  function Insert(cache: Cache, key: string, lines: seq<string>): Cache {
    if |cache.keys| >= LIMIT then
      Cache(cache.keys[1..] + [key], (cache.entries - {cache.keys[0]})[key := lines])
    else Cache(cache.keys + [key], cache.entries[key := lines])
  }

  predicate Hit(zones: Zones, cache: Cache, call: Call) {
    call.zone == "UTC" || CacheKey(call.zone, zones.year(call.zone, call.eventStart)) in cache.entries
  }

  /** The cache after one call and the lines it answers. */
  function Answer(zones: Zones, cache: Cache, call: Call): (Cache, seq<string>) {
    if call.zone == "UTC" then (cache, [])
    else
      var startYear := zones.year(call.zone, call.eventStart);
      var key := CacheKey(call.zone, startYear);
      if key in cache.entries then (cache, cache.entries[key])
      else
        var lines := Rebuild(zones, call.zone, startYear);
        (Insert(cache, key, lines), lines)
  }

  predicate Distinct(keys: seq<string>) {
    forall i, j :: 0 <= i < j < |keys| ==> keys[i] != keys[j]
  }

  /** The order lists exactly the stored keys, never more than the limit, and every stored
      component is the one a rebuild would give. */
  ghost predicate Sound(zones: Zones, cache: Cache) {
    && |cache.keys| <= LIMIT && Distinct(cache.keys)
    && (forall key :: key in cache.entries <==> key in cache.keys)
    && forall zone, year: nat :: CacheKey(zone, year) in cache.entries ==>
      cache.entries[CacheKey(zone, year)] == Rebuild(zones, zone, year)
  }

  lemma AnswerIsTransparent(zones: Zones, cache: Cache, call: Call)
    requires Sound(zones, cache)
    ensures var (cache', lines) := Answer(zones, cache, call);
            Sound(zones, cache') && lines == Uncached(zones, call)
  {
    if !Hit(zones, cache, call) {
      var startYear := zones.year(call.zone, call.eventStart);
      var key := CacheKey(call.zone, startYear);
      var lines := Rebuild(zones, call.zone, startYear);
      var cache' := Insert(cache, key, lines);
      assert key !in cache.keys;
      InsertKeepsOrder(cache, key, lines);
      forall zone, year: nat | CacheKey(zone, year) in cache'.entries
        ensures cache'.entries[CacheKey(zone, year)] == Rebuild(zones, zone, year)
      {
        KeysNeverCollide(zone, year, call.zone, startYear);
      }
    }
  }

  lemma InsertKeepsOrder(cache: Cache, key: string, lines: seq<string>)
    requires |cache.keys| <= LIMIT && Distinct(cache.keys) && key !in cache.keys
    requires forall k :: k in cache.entries <==> k in cache.keys
    ensures var cache' := Insert(cache, key, lines);
            && |cache'.keys| <= LIMIT && Distinct(cache'.keys)
            && (forall k :: k in cache'.entries <==> k in cache'.keys)
  {
    if |cache.keys| >= LIMIT {
      var rest := cache.keys[1..];
      assert cache.keys == [cache.keys[0]] + rest;
      assert cache.keys[0] !in rest;
    }
  }

  // ---------- whole runs ----------

  function Run(zones: Zones, calls: seq<Call>): Cache {
    if calls == [] then EMPTY else Answer(zones, Run(zones, calls[..|calls| - 1]), calls[|calls| - 1]).0
  }

  /** The keys built over a run, oldest first. */
  function Built(zones: Zones, calls: seq<Call>): seq<string> {
    if calls == [] then []
    else
      var before, call := calls[..|calls| - 1], calls[|calls| - 1];
      Built(zones, before)
      + (if Hit(zones, Run(zones, before), call) then [] else [CacheKey(call.zone, zones.year(call.zone, call.eventStart))])
  }

  function Latest(keys: seq<string>): seq<string> {
    if |keys| <= LIMIT then keys else keys[|keys| - LIMIT..]
  }

  lemma LatestAfterInsert(built: seq<string>, key: string, lines: seq<string>, cache: Cache)
    requires cache.keys == Latest(built)
    ensures Insert(cache, key, lines).keys == Latest(built + [key])
  {
    if |built| > LIMIT {
      assert built[|built| - LIMIT..][1..] == built[|built| - LIMIT + 1..];
    }
  }

  /** After any calls the next answer is the uncached one, and the cache holds exactly the latest
      32 keys built. */
  lemma {:induction false} RunIsTransparent(zones: Zones, calls: seq<Call>)
    ensures Sound(zones, Run(zones, calls))
    ensures Run(zones, calls).keys == Latest(Built(zones, calls))
    ensures var keys, built := Run(zones, calls).keys, Built(zones, calls);
            keys == if |built| <= 32 then built else built[|built| - 32..]
    ensures forall call :: Answer(zones, Run(zones, calls), call).1 == Uncached(zones, call)
  {
    var cache := Run(zones, calls);
    if calls != [] {
      var before, call := calls[..|calls| - 1], calls[|calls| - 1];
      RunIsTransparent(zones, before);
      AnswerIsTransparent(zones, Run(zones, before), call);
      if !Hit(zones, Run(zones, before), call) {
        var startYear := zones.year(call.zone, call.eventStart);
        LatestAfterInsert(Built(zones, before), CacheKey(call.zone, startYear), Rebuild(zones, call.zone, startYear),
                          Run(zones, before));
      } else {
        assert Built(zones, calls) == Built(zones, before);
      }
    }
    forall call ensures Answer(zones, cache, call).1 == Uncached(zones, call) {
      AnswerIsTransparent(zones, cache, call);
    }
  }

  // ---------- the cache in place ----------

  class TimeZoneLinesCache {
    const zones: Zones
    var keys: seq<string>
    var entries: map<string, seq<string>>

    function Value(): Cache
      reads this
    {
      Cache(keys, entries)
    }

    ghost predicate Valid()
      reads this
    {
      Sound(zones, Value())
    }

    constructor (zones: Zones)
      ensures Valid() && Value() == EMPTY && this.zones == zones
    {
      this.zones := zones;
      keys, entries := [], map[];
    }

    /** The lines of the VTIMEZONE component for an event. */
    method BuildTimeZoneLines(zone: string, eventStart: int) returns (lines: seq<string>)
      requires Valid()
      modifies this
      ensures Valid() && (Value(), lines) == Answer(zones, old(Value()), Call(zone, eventStart))
      ensures lines == Uncached(zones, Call(zone, eventStart))
      ensures zone == "UTC" ==> lines == [] && keys == old(keys)
      ensures zone != "UTC" ==> lines == ZoneLines(zone, zones.offset(zone), zones.year(zone, eventStart), zones.stamp)
      ensures |keys| <= 32
    {
      AnswerIsTransparent(zones, Value(), Call(zone, eventStart));
      if zone == "UTC" { return []; }
      var startYear := zones.year(zone, eventStart);
      var cacheKey := CacheKey(zone, startYear);
      if cacheKey in entries { return entries[cacheKey]; }
      lines := Rebuild(zones, zone, startYear);
      if |keys| >= LIMIT {
        var oldestKey := keys[0];
        entries := entries - {oldestKey};
        keys := keys[1..];
      }
      entries := entries[cacheKey := lines];
      keys := keys + [cacheKey];
    }
  }
}
