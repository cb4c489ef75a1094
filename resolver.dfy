/**
 * genChecksum's choice of where the checksum comes from, and the state it
 * changes: the shared checksum cache. The rules, first match wins:
 *   - a non-empty inbound `x-cursor-checksum` header is returned as it is;
 *   - otherwise the `cursor.checksum` setting is read; an URL (a value that
 *     starts with "http") is looked up in the cache under the token's key,
 *     fetched on a miss and written to the cache for 30 minutes;
 *   - any other non-empty setting is returned as it is;
 *   - only an empty setting leads to the local computation.
 */
module Resolver {
  import opened Outcomes
  import opened Bytes
  import opened Text
  import opened Mixer
  import opened Clock
  import opened Checksum
  import opened Encoding

  /** The `30*time.Minute` expiry the fetched checksum is cached with. */
  const CACHE_TTL_MINUTES: int := 30

  /** Where the returned checksum came from. */
  datatype Source = Header | Setting | Remote | Local

  /** The outcome of `cacheManager.GetValue`: an error, or the stored value ("" on a miss). */
  datatype CacheLookup = LookupFailed | Found(value: string)

  /** The outcome of the GET on the configured URL: a failure (network or non-200), or the body text. */
  datatype FetchOutcome = FetchFailed | Fetched(body: string)

  /** The inbound request as genChecksum sees it: the `token` context value and the inbound header. */
  datatype Request = Request(token: string, checksumHeader: string)

  /**
   * What one call of genChecksum yields: the checksum (or the panic of the
   * local branch), where it came from, whether the GET was issued, and the
   * value handed to the cache for storing, if any.
   */
  datatype Resolution = Resolution(checksum: Result<string>, source: Source, fetched: bool, stored: Option<string>)

  /** Which rule applies to a header value and a setting. */
  function SourceOf(header: string, setting: string): Source {
    if header != "" then Header
    else if HasPrefix(setting, "http") then Remote
    else if setting != "" then Setting
    else Local
  }

  /** The remote branch, fetch.go:123-145, given what the cache and the GET report. */
  function ResolveRemote(lookup: CacheLookup, fetch: FetchOutcome): (r: Resolution)
  {
    match lookup
    case LookupFailed => Resolution(Ok(""), Remote, false, None)
    case Found(v) =>
      if v != "" then Resolution(Ok(v), Remote, false, None)
      else (
        match fetch
        case FetchFailed => Resolution(Ok(""), Remote, true, None)
        case Fetched(body) => Resolution(Ok(body), Remote, true, Some(body))
      )
  }

  /**
   * The whole of genChecksum as a function of its inputs: the request, the
   * setting, what the cache and the GET would report, the window timestamp and
   * the hash functions.
   */
  function Resolve(req: Request, setting: string, lookup: CacheLookup, fetch: FetchOutcome, ts: int, h: Hashes): (r: Resolution)
  {
    match SourceOf(req.checksumHeader, setting)
    case Header => Resolution(Ok(req.checksumHeader), Header, false, None)
    case Remote => ResolveRemote(lookup, fetch)
    case Setting => Resolution(Ok(setting), Setting, false, None)
    case Local => Resolution(LocalChecksum(req.token, ts, h), Local, false, None)
  }

  /** A non-empty inbound header is returned unchanged and nothing else is consulted. */
  lemma HeaderWins(req: Request, setting: string, lookup: CacheLookup, fetch: FetchOutcome, ts: int, h: Hashes)
    requires req.checksumHeader != ""
    ensures Resolve(req, setting, lookup, fetch, ts, h) == Resolution(Ok(req.checksumHeader), Header, false, None)
  {
  }

  /** Without a header, a non-empty setting that is not an URL is returned unchanged. */
  lemma SettingVerbatim(req: Request, setting: string, lookup: CacheLookup, fetch: FetchOutcome, ts: int, h: Hashes)
    requires req.checksumHeader == "" && setting != "" && !HasPrefix(setting, "http")
    ensures Resolve(req, setting, lookup, fetch, ts, h) == Resolution(Ok(setting), Setting, false, None)
  {
  }

  /** The local computation is reached exactly when both the header and the setting are empty. */
  lemma LocalOnlyWhenBothEmpty(req: Request, setting: string, lookup: CacheLookup, fetch: FetchOutcome, ts: int, h: Hashes)
    ensures var r := Resolve(req, setting, lookup, fetch, ts, h);
      r.source == Local <==> req.checksumHeader == "" && setting == ""
    ensures var r := Resolve(req, setting, lookup, fetch, ts, h);
      r.source == Local ==> r.checksum == LocalChecksum(req.token, ts, h) && !r.fetched && r.stored.None?
  {
  }

  /** Only the local branch can panic; every other branch returns a string. */
  lemma OnlyLocalFails(req: Request, setting: string, lookup: CacheLookup, fetch: FetchOutcome, ts: int, h: Hashes)
    ensures var r := Resolve(req, setting, lookup, fetch, ts, h);
      r.checksum.Err? ==> r.source == Local && '.' !in req.token
  {
    LocalChecksumFailsIff(req.token, ts, h);
  }

  /**
   * The remote branch: a cache error gives "" with no GET; a non-empty cached
   * value is returned with no GET; a GET failure gives "" and stores nothing;
   * a fetched body is handed to the cache and returned. The local computation is never reached.
   */
  lemma RemoteBranch(req: Request, setting: string, lookup: CacheLookup, fetch: FetchOutcome, ts: int, h: Hashes)
    requires req.checksumHeader == "" && HasPrefix(setting, "http")
    ensures var r := Resolve(req, setting, lookup, fetch, ts, h);
      && r.source == Remote && r.checksum.Ok?
      && (lookup.LookupFailed? ==> r.checksum.value == "" && !r.fetched && r.stored.None?)
      && (lookup.Found? && lookup.value != "" ==> r.checksum.value == lookup.value && !r.fetched && r.stored.None?)
      && (lookup == Found("") ==> r.fetched)
      && (lookup == Found("") && fetch.FetchFailed? ==> r.checksum.value == "" && r.stored.None?)
      && (lookup == Found("") && fetch.Fetched? ==> r.checksum.value == fetch.body && r.stored == Some(fetch.body))
  {
  }

  /** The GET is issued only on a cache miss in the remote branch, and whatever is handed to the cache is what is returned. */
  lemma FetchOnlyOnMiss(req: Request, setting: string, lookup: CacheLookup, fetch: FetchOutcome, ts: int, h: Hashes)
    ensures var r := Resolve(req, setting, lookup, fetch, ts, h);
      r.fetched <==> req.checksumHeader == "" && HasPrefix(setting, "http") && lookup == Found("")
    ensures var r := Resolve(req, setting, lookup, fetch, ts, h);
      r.stored.Some? ==> r.fetched && fetch.Fetched? && r.checksum == Ok(r.stored.value)
  {
  }

  /** An entry of the checksum cache: the value and the expiry it was set with. */
  datatype Entry = Entry(value: string, ttlMinutes: int)

  /**
   * `cache.CursorCacheManager()`: the store of fetched checksums, keyed by
   * `common.CalcHex(token)`. `entries` holds the entries that have not expired.
   */
  class CursorCache {
    var entries: map<string, Entry>

    constructor ()
      ensures entries == map[]
    {
      entries := map[];
    }

    /** What `GetValue` reports: an error when the store fails, else the stored value or "". */
    static function LookupIn(entries: map<string, Entry>, key: string, fault: bool): CacheLookup {
      if fault then LookupFailed
      else Found(if key in entries then entries[key].value else "")
    }

    /** `GetValue(key)`; `fault` says whether the store reports an error on this call. */
    method GetValue(key: string, fault: bool) returns (r: CacheLookup)
      ensures r == LookupIn(entries, key, fault)
    {
      if fault {
        r := LookupFailed;
      } else if key in entries {
        r := Found(entries[key].value);
      } else {
        r := Found("");
      }
    }

    /**
     * `SetWithExpiration(key, value, ttl)`; `fault` says whether the store
     * reports an error on this call, in which case nothing is written.
     */
    method SetWithExpiration(key: string, value: string, ttlMinutes: int, fault: bool) returns (failed: bool)
      modifies this
      ensures failed == fault
      ensures entries == if fault then old(entries) else old(entries)[key := Entry(value, ttlMinutes)]
    {
      if fault {
        failed := true;
      } else {
        entries := entries[key := Entry(value, ttlMinutes)];
        failed := false;
      }
    }
  }

  /**
   * The cache after a call: the value handed to the store is written under the
   * token's key with the 30-minute expiry unless the write fails (`setFault`);
   * otherwise nothing changes.
   */
  function CacheAfter(entries: map<string, Entry>, key: string, r: Resolution, setFault: bool): (m: map<string, Entry>)
    ensures forall k :: k != key ==> (k in m <==> k in entries) && (k in m ==> m[k] == entries[k])
    ensures r.stored.Some? && !setFault ==> key in m && m[key] == Entry(r.stored.value, CACHE_TTL_MINUTES)
    ensures r.stored.None? || setFault ==> m == entries
  {
    if r.stored.Some? && !setFault then entries[key := Entry(r.stored.value, CACHE_TTL_MINUTES)] else entries
  }

  /**
   * genChecksum, step by step as the source does it. `cacheFault`, `setFault`
   * and `fetch` stand for what the cache lookup, the cache write and the GET
   * report; `now` and `zone` for `time.Now()` and its location. The error of
   * the cache write is discarded, so it changes only the cache, never the result.
   */
  method GenChecksum(req: Request, setting: string, cache: CursorCache, cacheFault: bool, setFault: bool, fetch: FetchOutcome,
                     now: LocalTime, zone: LocalTime -> int, h: Hashes)
      returns (checksum: Result<string>, fetched: bool)
    requires Valid(now)
    modifies cache
    ensures var key := h.calcHex(req.token);
      var r := Resolve(req, setting, CursorCache.LookupIn(old(cache.entries), key, cacheFault), fetch, WindowTimestamp(now, zone), h);
      && checksum == r.checksum
      && fetched == r.fetched
      && cache.entries == CacheAfter(old(cache.entries), key, r, setFault)
  {
    var token := req.token;
    var value := req.checksumHeader;
    fetched := false;

    if value == "" {
      value := setting;
      if HasPrefix(value, "http") {
        var lookup := cache.GetValue(h.calcHex(token), cacheFault);
        if lookup.LookupFailed? {
          return Ok(""), false;
        }
        if lookup.value != "" {
          return Ok(lookup.value), false;
        }
        fetched := true;
        if fetch.FetchFailed? {
          return Ok(""), true;
        }
        value := fetch.body;
        var _ := cache.SetWithExpiration(h.calcHex(token), value, CACHE_TTL_MINUTES, setFault);
        return Ok(value), true;
      }
    }

    if value == "" {
      checksum := ComputeLocal(token, now, zone, h);
    } else {
      checksum := Ok(value);
    }
  }

  /**
   * The local branch of genChecksum, fetch.go:148-177, step by step: split the
   * token, bucket the clock reading, lay out and mix the six bytes in an
   * array, then format the result.
   */
  method ComputeLocal(token: string, now: LocalTime, zone: LocalTime -> int, h: Hashes) returns (checksum: Result<string>)
    requires Valid(now)
    ensures checksum == LocalChecksum(token, WindowTimestamp(now, zone), h)
  {
    var salt := Split(token, '.');
    var bucket := Bucket(now);
    var timestamp := Timestamp(zone(bucket));
    var data := new byte[6];
    data[0], data[1], data[2] := ByteOf(timestamp / 0x100), ByteOf(timestamp), ByteOf(timestamp / 0x100_0000);
    data[3], data[4], data[5] := ByteOf(timestamp / 0x1_0000), ByteOf(timestamp / 0x100), ByteOf(timestamp);
    assert data[..] == Layout(timestamp);
    Mix(data);
    if |salt| < 2 {
      return Err(IndexOutOfRange);
    }
    checksum := Ok(Base64Raw(data[..]) + Hex(h.sha256(salt[1])) + "/" + Hex(h.sha256(token)));
  }
}
