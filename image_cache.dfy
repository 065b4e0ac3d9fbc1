/**
 * The two-tier image cache and the loader built on it.
 *
 * The memory tier (`NSCache`) is a map from the URL's absolute string to a
 * decoded image. The disk tier (the `ImageCache` directory under the
 * platform's caches directory) is a map from a sanitised file name to the
 * file's bytes and modification time. Time is an integer number of seconds
 * passed in by the caller; JPEG encoding and image decoding are functions the
 * cache is constructed with; file-system outcomes the app ignores with
 * `try?` are parameters of the operations that meet them.
 */
module Cache {
  import opened Wrappers
  import opened Foundation

  /** A decoded image (`UIImage`), known by its pixel data. */
  datatype Image = Image(pixels: seq<bv8>)

  /** A file of the cache directory: its contents and modification time. */
  datatype DiskFile = DiskFile(data: seq<bv8>, modified: int)

  /** Files older than this many seconds are swept: one week. */
  const MaxCacheAge: int := 7 * 24 * 60 * 60

  // ---------------------------------------------------------------------------
  // Keys

  /** The memory key of a URL is its absolute string, unchanged. */
  function CacheKey(url: Url): string
  {
    url.absoluteString
  }

  /** Distinct URLs never share a memory entry. */
  lemma CacheKeyIdentifiesUrl(u: Url, v: Url)
    ensures CacheKey(u) == CacheKey(v) <==> u == v
  {
  }

  /** The characters a file name may not keep. */
  predicate IsReserved(c: char)
  {
    c == '/' || c == ':' || c == '?' || c == '&' || c == '='
  }

  function SanitizeChar(c: char): char
  {
    if IsReserved(c) then '_' else c
  }

  /**
   * The disk file name of a key: each reserved character becomes `_`; every
   * other character, and the length, is kept.
   */
  function FileName(key: string): (r: string)
    ensures |r| == |key|
    ensures forall i :: 0 <= i < |key| ==> r[i] == SanitizeChar(key[i])
  {
    if key == [] then [] else [SanitizeChar(key[0])] + FileName(key[1..])
  }

  /**
   * `cacheFileURL(for:)`'s last path component: the absolute string after
   * the five replacement passes, so it holds no reserved character.
   */
  function FileNameOf(url: Url): (r: string)
    ensures r == ReplaceChar(ReplaceChar(ReplaceChar(ReplaceChar(ReplaceChar(
      url.absoluteString, '/', "_"), ':', "_"), '?', "_"), '&', "_"), '=', "_")
    ensures forall c :: c in r ==> !IsReserved(c)
  {
    FileNameIsFiveReplacements(CacheKey(url));
    FileNameHasNoReserved(CacheKey(url));
    FileName(CacheKey(url))
  }

  /**
   * The source derives the file name by five `replacingOccurrences` passes,
   * one per reserved character, in this order; the result is `FileName`.
   */
  lemma FileNameIsFiveReplacements(key: string)
    ensures FileName(key) ==
      ReplaceChar(ReplaceChar(ReplaceChar(ReplaceChar(ReplaceChar(
        key, '/', "_"), ':', "_"), '?', "_"), '&', "_"), '=', "_")
  {
    var s1 := ReplaceChar(key, '/', "_");
    var s2 := ReplaceChar(s1, ':', "_");
    var s3 := ReplaceChar(s2, '?', "_");
    var s4 := ReplaceChar(s3, '&', "_");
    var s5 := ReplaceChar(s4, '=', "_");
    assert |s5| == |key|;
    forall i | 0 <= i < |key| ensures s5[i] == FileName(key)[i] {
    }
  }

  /** A file name holds no reserved character. */
  lemma FileNameHasNoReserved(key: string)
    ensures forall c :: c in FileName(key) ==> !IsReserved(c)
  {
    var r := FileName(key);
    forall c | c in r ensures !IsReserved(c) {
      var i :| 0 <= i < |r| && r[i] == c;
    }
  }

  /** Sanitising a file name again changes nothing. */
  lemma FileNameIdempotent(key: string)
    ensures FileName(FileName(key)) == FileName(key)
  {
  }

  /** The file name of a concatenation is the concatenation of the file names. */
  lemma {:induction false} FileNameAppend(a: string, b: string)
    ensures FileName(a + b) == FileName(a) + FileName(b)
  {
    if a == [] {
      assert a + b == b;
    } else {
      assert (a + b)[0] == a[0] && (a + b)[1..] == a[1..] + b;
      FileNameAppend(a[1..], b);
      var head, x, y := [SanitizeChar(a[0])], FileName(a[1..]), FileName(b);
      assert head + (x + y) == (head + x) + y;
    }
  }

  /**
   * Two URLs of the same length whose absolute strings differ only where
   * both hold a reserved character name the same disk file (their memory
   * keys differ whenever the strings do).
   */
  lemma SharedDiskFile(u: Url, v: Url)
    requires |u.absoluteString| == |v.absoluteString|
    requires forall i :: 0 <= i < |u.absoluteString| ==>
      u.absoluteString[i] == v.absoluteString[i] ||
      (IsReserved(u.absoluteString[i]) && IsReserved(v.absoluteString[i]))
    ensures FileNameOf(u) == FileNameOf(v)
  {
  }

  /** The scheme separator `://` becomes three underscores. */
  lemma {:induction false} FileNameOfSchemeSeparator(scheme: string, rest: string)
    ensures FileName(scheme + "://" + rest) == FileName(scheme) + "___" + FileName(rest)
  {
    FileNameAppend(scheme + "://", rest);
    FileNameAppend(scheme, "://");
    assert FileName("://") == "___";
  }

  /** Two different memory keys that share one disk file. */
  lemma FileNameCollisionExample()
    ensures FileName("a?b=c") == FileName("a/b:c")
    ensures CacheKey(Url("a?b=c")) != CacheKey(Url("a/b:c"))
  {
    assert "a?b=c"[1] != "a/b:c"[1];
  }

  // ---------------------------------------------------------------------------
  // The expiry sweep, as a function of the directory

  /** `contentsOfDirectory(..., options: .skipsHiddenFiles)` leaves these out. */
  predicate IsHidden(name: string)
  {
    |name| > 0 && name[0] == '.'
  }

  /**
   * The files among `names` that the sweep deletes: those whose modification
   * date can be read and is strictly earlier than `expiration`.
   */
  predicate Deletes(d: map<string, DiskFile>, names: set<string>, expiration: int, unreadable: set<string>, n: string)
    requires n in d
  {
    n in names && n !in unreadable && d[n].modified < expiration
  }

  function RemoveExpired(d: map<string, DiskFile>, names: set<string>, expiration: int, unreadable: set<string>): map<string, DiskFile>
  {
    map n | n in d && !Deletes(d, names, expiration, unreadable, n) :: d[n]
  }

  function VisibleNames(d: map<string, DiskFile>): set<string>
  {
    set n | n in d && !IsHidden(n)
  }

  /**
   * The directory after the sweep at time `now`: every visible file whose
   * date is readable and older than a week is gone, every other file is
   * kept unchanged.
   */
  function Sweep(d: map<string, DiskFile>, now: int, unreadable: set<string>): (r: map<string, DiskFile>)
    ensures forall n :: n in r <==> n in d && (IsHidden(n) || n in unreadable || d[n].modified >= now - MaxCacheAge)
    ensures forall n :: n in r ==> r[n] == d[n]
  {
    RemoveExpired(d, VisibleNames(d), now - MaxCacheAge, unreadable)
  }

  /** A file written or read within the last week survives the sweep. */
  lemma SweepKeepsRecent(d: map<string, DiskFile>, name: string, data: seq<bv8>, t: int, now: int, unreadable: set<string>)
    requires now - MaxCacheAge <= t
    ensures name in Sweep(d[name := DiskFile(data, t)], now, unreadable)
  {
  }

  /** Sweeping twice at the same time deletes nothing more. */
  lemma SweepIdempotent(d: map<string, DiskFile>, now: int, unreadable: set<string>)
    ensures Sweep(Sweep(d, now, unreadable), now, unreadable) == Sweep(d, now, unreadable)
  {
  }

  /** A later sweep deletes at least what an earlier one does. */
  lemma SweepMonotone(d: map<string, DiskFile>, t1: int, t2: int, unreadable: set<string>)
    requires t1 <= t2
    ensures Sweep(d, t2, unreadable).Keys <= Sweep(d, t1, unreadable).Keys
  {
  }

  // ---------------------------------------------------------------------------
  // The cache

  class ImageCache {
    /** `memoryCache`: the memory tier, by `CacheKey`. */
    var memory: map<string, Image>
    /** The files of the cache directory, by `FileName`. */
    var disk: map<string, DiskFile>
    /** Whether the cache directory exists. */
    var directoryExists: bool
    /** `UIImage(data:)`. */
    const decode: seq<bv8> -> Option<Image>
    /** `jpegData(compressionQuality: 0.8)`. */
    const encodeJpeg: Image -> Option<seq<bv8>>

    /** Without a directory there are no files. */
    ghost predicate Valid()
      reads this
    {
      !directoryExists ==> disk == map[]
    }

    /** What `ImageFor(url)` returns in the current state. */
    function Lookup(url: Url): (r: Option<Image>)
      reads this
    {
      var key := CacheKey(url);
      var name := FileNameOf(url);
      if key in memory then Some(memory[key])
      else if name in disk && decode(disk[name].data).Some? then decode(disk[name].data)
      else None
    }

    /**
     * `init()`: create the directory if it is missing (creation may fail),
     * then sweep expired files. `persisted` is the directory left by earlier
     * runs of the app, `None` when there is none.
     */
    constructor (persisted: Option<map<string, DiskFile>>, createSucceeds: bool,
                 decode: seq<bv8> -> Option<Image>, encodeJpeg: Image -> Option<seq<bv8>>,
                 now: int, listable: bool, unreadable: set<string>)
      ensures Valid()
      ensures this.decode == decode && this.encodeJpeg == encodeJpeg
      ensures memory == map[]
      ensures directoryExists == (persisted.Some? || createSucceeds)
      ensures persisted.Some? && listable ==> disk == Sweep(persisted.value, now, unreadable)
      ensures persisted.Some? && !listable ==> disk == persisted.value
      ensures persisted.None? ==> disk == map[]
    {
      this.decode := decode;
      this.encodeJpeg := encodeJpeg;
      memory := map[];
      if persisted.Some? {
        disk := persisted.value;
        directoryExists := true;
      } else {
        disk := map[];
        directoryExists := createSucceeds;
      }
      new;
      ClearExpiredCache(now, listable, unreadable);
    }

    /**
     * `image(for:)`: memory first; on a miss, the disk file, which when it
     * decodes has its modification time set to `now` and is put in memory.
     */
    method ImageFor(url: Url, now: int) returns (r: Option<Image>)
      requires Valid()
      modifies this
      ensures Valid()
      ensures r == old(Lookup(url))
      ensures directoryExists == old(directoryExists)
      ensures CacheKey(url) in old(memory) ==> memory == old(memory) && disk == old(disk)
      ensures CacheKey(url) !in old(memory) && r.Some? ==>
        memory == old(memory)[CacheKey(url) := r.value] &&
        disk == old(disk)[FileNameOf(url) := DiskFile(old(disk)[FileNameOf(url)].data, now)]
      ensures r.None? ==> memory == old(memory) && disk == old(disk)
    {
      var key := CacheKey(url);
      if key in memory {
        return Some(memory[key]);
      }
      var name := FileNameOf(url);
      if name in disk {
        var image := decode(disk[name].data);
        if image.Some? {
          disk := disk[name := DiskFile(disk[name].data, now)];
          memory := memory[key := image.value];
          return image;
        }
      }
      return None;
    }

    /**
     * `storeImage(_:for:)`: always sets the memory entry; writes the file
     * only when JPEG encoding succeeds, the directory exists and the write
     * is not refused.
     */
    method StoreImage(image: Image, url: Url, now: int, writeSucceeds: bool)
      requires Valid()
      modifies this
      ensures Valid()
      ensures memory == old(memory)[CacheKey(url) := image]
      ensures directoryExists == old(directoryExists)
      ensures encodeJpeg(image).Some? && directoryExists && writeSucceeds ==>
        disk == old(disk)[FileNameOf(url) := DiskFile(encodeJpeg(image).value, now)]
      ensures !(encodeJpeg(image).Some? && directoryExists && writeSucceeds) ==> disk == old(disk)
      ensures Lookup(url) == Some(image)
    {
      var key := CacheKey(url);
      memory := memory[key := image];
      var data := encodeJpeg(image);
      if data.Some? && directoryExists && writeSucceeds {
        disk := disk[FileNameOf(url) := DiskFile(data.value, now)];
      }
    }

    /** `removeImage(for:)`: drops the key from both tiers; absent keys are a no-op. */
    method RemoveImage(url: Url)
      requires Valid()
      modifies this
      ensures Valid()
      ensures memory == old(memory) - {CacheKey(url)}
      ensures disk == old(disk) - {FileNameOf(url)}
      ensures directoryExists == old(directoryExists)
      ensures Lookup(url) == None
    {
      memory := memory - {CacheKey(url)};
      disk := disk - {FileNameOf(url)};
    }

    /** `clearMemoryCache()`, run on a memory warning and before termination. */
    method ClearMemoryCache()
      requires Valid()
      modifies this
      ensures Valid()
      ensures memory == map[]
      ensures disk == old(disk) && directoryExists == old(directoryExists)
    {
      memory := map[];
    }

    /** `clearDiskCache()`: delete the directory and create it again. */
    method ClearDiskCache(createSucceeds: bool)
      requires Valid()
      modifies this
      ensures Valid()
      ensures disk == map[] && directoryExists == createSucceeds
      ensures memory == old(memory)
    {
      disk := map[];
      directoryExists := createSucceeds;
    }

    /** `clearAllCache()`. */
    method ClearAllCache(createSucceeds: bool)
      requires Valid()
      modifies this
      ensures Valid()
      ensures memory == map[] && disk == map[]
      ensures directoryExists == createSucceeds
      ensures forall u :: Lookup(u) == None
    {
      ClearMemoryCache();
      ClearDiskCache(createSucceeds);
    }

    /**
     * `NSCache` may discard entries at any time (count and cost limits,
     * memory pressure); which ones is its own choice, given here as `keys`.
     */
    method Evict(keys: set<string>)
      requires Valid()
      modifies this
      ensures Valid()
      ensures memory == old(memory) - keys
      ensures disk == old(disk) && directoryExists == old(directoryExists)
    {
      memory := memory - keys;
    }

    /**
     * `clearExpiredCache()`, run at start-up and when the app enters the
     * background: lists the directory (nothing happens if it cannot be
     * listed) and deletes, one file at a time, each visible file whose date
     * can be read and is older than a week.
     */
    method ClearExpiredCache(now: int, listable: bool, unreadable: set<string>)
      requires Valid()
      modifies this
      ensures Valid()
      ensures memory == old(memory) && directoryExists == old(directoryExists)
      ensures directoryExists && listable ==> disk == Sweep(old(disk), now, unreadable)
      ensures !(directoryExists && listable) ==> disk == old(disk)
    {
      if !directoryExists || !listable {
        return;
      }
      var fileNames := VisibleNames(disk);
      var expiration := now - MaxCacheAge;
      var pending := fileNames;
      while pending != {}
        invariant pending <= fileNames
        invariant directoryExists
        invariant memory == old(memory)
        invariant disk == RemoveExpired(old(disk), fileNames - pending, expiration, unreadable)
        decreases pending
      {
        var name :| name in pending;
        ghost var done := fileNames - pending;
        pending := pending - {name};
        assert fileNames - pending == done + {name};
        assert name in disk;
        if name !in unreadable && disk[name].modified < expiration {
          disk := disk - {name};
        }
      }
    }
  }

  // ---------------------------------------------------------------------------
  // Scenarios over the cache

  /** Storing and then looking up the same URL hits memory. */
  method StoreThenLookup(c: ImageCache, image: Image, url: Url, now: int, writeSucceeds: bool) returns (r: Option<Image>)
    requires c.Valid()
    modifies c
    ensures c.Valid()
    ensures r == Some(image)
  {
    c.StoreImage(image, url, now, writeSucceeds);
    r := c.ImageFor(url, now);
  }

  /**
   * A memory warning empties memory but leaves disk: an image that was
   * written to disk and decodes again is still found, through the disk tier.
   */
  method MemoryWarningKeepsDisk(c: ImageCache, image: Image, url: Url, now: int) returns (r: Option<Image>)
    requires c.Valid() && c.directoryExists
    requires c.encodeJpeg(image).Some? && c.decode(c.encodeJpeg(image).value).Some?
    modifies c
    ensures c.Valid()
    ensures r == c.decode(c.encodeJpeg(image).value)
  {
    c.StoreImage(image, url, now, true);
    c.ClearMemoryCache();
    r := c.ImageFor(url, now);
  }

  // ---------------------------------------------------------------------------
  // The loader

  /**
   * `ImageLoader`: loads one URL through the shared cache, falling back to a
   * network fetch. A fetch is asynchronous: `LoadImage` starts it and
   * `Deliver` is its arrival. `subscriptions` counts the `cancellables`
   * kept; `inFlight` counts fetches whose callbacks are still live.
   */
  class ImageLoader {
    var image: Option<Image>
    var isLoading: bool
    var error: Option<string>
    var subscriptions: nat
    var inFlight: nat
    const url: Option<Url>
    const cache: ImageCache

    ghost predicate Valid()
      reads this, cache
    {
      cache.Valid() && inFlight <= subscriptions && (inFlight > 0 ==> url.Some?)
    }

    /** `init(url:)`: loads at once when a URL is given. */
    constructor (url: Option<Url>, cache: ImageCache, now: int)
      requires cache.Valid()
      modifies cache
      ensures Valid() && this.url == url && this.cache == cache
      ensures error == None
      ensures url.None? ==> image == None && !isLoading && subscriptions == 0 && inFlight == 0
      ensures url.None? ==> cache.memory == old(cache.memory) && cache.disk == old(cache.disk)
      ensures cache.directoryExists == old(cache.directoryExists)
      ensures url.Some? && old(cache.Lookup(url.value)).Some? ==>
        image == old(cache.Lookup(url.value)) && !isLoading && subscriptions == 0 && inFlight == 0
      ensures url.Some? && CacheKey(url.value) in old(cache.memory) ==>
        cache.memory == old(cache.memory) && cache.disk == old(cache.disk)
      ensures url.Some? && CacheKey(url.value) !in old(cache.memory) && old(cache.Lookup(url.value)).Some? ==>
        cache.memory == old(cache.memory)[CacheKey(url.value) := image.value] &&
        cache.disk == old(cache.disk)[FileNameOf(url.value) := DiskFile(old(cache.disk)[FileNameOf(url.value)].data, now)]
      ensures url.Some? && old(cache.Lookup(url.value)).None? ==>
        image == None && isLoading && inFlight == 1 && subscriptions == 1 &&
        cache.memory == old(cache.memory) && cache.disk == old(cache.disk)
    {
      this.url := url;
      this.cache := cache;
      image := None;
      isLoading := false;
      error := None;
      subscriptions := 0;
      inFlight := 0;
      new;
      if url.Some? {
        LoadImage(now);
      }
    }

    /**
     * `loadImage()`: without a URL, report "No URL provided"; on a cache hit,
     * show the image (no loading state); on a miss, start a fetch.
     */
    method LoadImage(now: int)
      requires Valid()
      modifies this, cache
      ensures Valid()
      ensures url.None? ==>
        error == Some("No URL provided") && image == old(image) && isLoading == old(isLoading) &&
        subscriptions == old(subscriptions) && inFlight == old(inFlight) &&
        cache.memory == old(cache.memory) && cache.disk == old(cache.disk)
      ensures cache.directoryExists == old(cache.directoryExists)
      ensures url.Some? && old(cache.Lookup(url.value)).Some? ==>
        image == old(cache.Lookup(url.value)) && isLoading == old(isLoading) && error == old(error) &&
        subscriptions == old(subscriptions) && inFlight == old(inFlight)
      ensures url.Some? && CacheKey(url.value) in old(cache.memory) ==>
        cache.memory == old(cache.memory) && cache.disk == old(cache.disk)
      ensures url.Some? && CacheKey(url.value) !in old(cache.memory) && old(cache.Lookup(url.value)).Some? ==>
        cache.memory == old(cache.memory)[CacheKey(url.value) := image.value] &&
        cache.disk == old(cache.disk)[FileNameOf(url.value) := DiskFile(old(cache.disk)[FileNameOf(url.value)].data, now)]
      ensures url.Some? && old(cache.Lookup(url.value)).None? ==>
        image == old(image) && isLoading && error == old(error) &&
        subscriptions == old(subscriptions) + 1 && inFlight == old(inFlight) + 1 &&
        cache.memory == old(cache.memory) && cache.disk == old(cache.disk)
    {
      if url.None? {
        error := Some("No URL provided");
        return;
      }
      var cached := cache.ImageFor(url.value, now);
      if cached.Some? {
        image := cached;
        return;
      }
      isLoading := true;
      subscriptions := subscriptions + 1;
      inFlight := inFlight + 1;
    }

    /**
     * The arrival of a fetch: `fetched` is the downloaded data, `None` when
     * the request failed. Failures are replaced by nil, so `error` is never
     * set here; the image is shown and stored only when the data decodes.
     * A cancelled loader receives nothing.
     */
    method Deliver(fetched: Option<seq<bv8>>, now: int, writeSucceeds: bool)
      requires Valid()
      modifies this, cache
      ensures Valid()
      ensures error == old(error) && subscriptions == old(subscriptions)
      ensures old(inFlight) == 0 ==>
        image == old(image) && isLoading == old(isLoading) && inFlight == 0 &&
        cache.memory == old(cache.memory) && cache.disk == old(cache.disk)
      ensures old(inFlight) > 0 ==> inFlight == old(inFlight) - 1 && !isLoading
      ensures cache.directoryExists == old(cache.directoryExists)
      ensures old(inFlight) > 0 && fetched.Some? && cache.decode(fetched.value).Some? ==>
        image == cache.decode(fetched.value) &&
        cache.memory == old(cache.memory)[CacheKey(url.value) := image.value]
      ensures old(inFlight) > 0 && fetched.Some? && cache.decode(fetched.value).Some? ==>
        var jpeg := cache.encodeJpeg(cache.decode(fetched.value).value);
        if jpeg.Some? && cache.directoryExists && writeSucceeds
        then cache.disk == old(cache.disk)[FileNameOf(url.value) := DiskFile(jpeg.value, now)]
        else cache.disk == old(cache.disk)
      ensures old(inFlight) > 0 && (fetched.None? || cache.decode(fetched.value).None?) ==>
        image == old(image) && cache.memory == old(cache.memory) && cache.disk == old(cache.disk)
    {
      if inFlight == 0 {
        return;
      }
      inFlight := inFlight - 1;
      var decoded := if fetched.Some? then cache.decode(fetched.value) else None;
      if decoded.Some? {
        image := decoded;
        cache.StoreImage(decoded.value, url.value, now, writeSucceeds);
      }
      isLoading := false;
    }

    /** `cancel()`: cancels and forgets every subscription. */
    method Cancel()
      requires Valid()
      modifies this
      ensures Valid()
      ensures subscriptions == 0 && inFlight == 0
      ensures image == old(image) && isLoading == old(isLoading) && error == old(error)
    {
      subscriptions := 0;
      inFlight := 0;
    }
  }

  /** A loader cancelled before its fetch arrives leaves both tiers as they were. */
  method CancelBeforeArrival(loader: ImageLoader, fetched: Option<seq<bv8>>, now: int)
    requires loader.Valid()
    modifies loader, loader.cache
    ensures loader.cache.memory == old(loader.cache.memory) && loader.cache.disk == old(loader.cache.disk)
    ensures loader.image == old(loader.image)
  {
    loader.Cancel();
    loader.Deliver(fetched, now, true);
  }
}
