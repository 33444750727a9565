/** The two-level cache: memory in front of an object store whose writes land later, in any order, or never. */
module TieredCache {
  import opened Text
  import opened Params
  import opened ObjectKeys
  import M = MemoryCache

  type CacheEntry = M.CacheEntry

  const OCTET_STREAM: string := "application/octet-stream"

  /** A stored object: the store keeps bytes and a content type, and no creation time. */
  datatype Object = Object(data: seq<U8>, contentType: string)

  type Store = map<string, Object>

  predicate HasBytes(data: seq<U8>, at: nat, bytes: seq<U8>) {
    at + |bytes| <= |data| && data[at..at + |bytes|] == bytes
  }

  /** The content type that the first bytes of the data suggest. */
  function DetectContentType(data: seq<U8>): string {
    if |data| < 2 then OCTET_STREAM
    else if |data| >= 12 && HasBytes(data, 0, [0x52, 0x49, 0x46, 0x46]) && HasBytes(data, 8, [0x57, 0x45, 0x42, 0x50])
    then "image/webp"
    else if |data| >= 12 && HasBytes(data, 4, [0x66, 0x74, 0x79, 0x70])
      && (HasBytes(data, 8, [0x61, 0x76, 0x69, 0x66]) || HasBytes(data, 8, [0x61, 0x76, 0x69, 0x73])
       || HasBytes(data, 8, [0x68, 0x65, 0x69, 0x63]) || HasBytes(data, 8, [0x68, 0x65, 0x69, 0x78])
       || HasBytes(data, 8, [0x6D, 0x69, 0x66, 0x31]))
    then "image/avif"
    else if HasBytes(data, 0, [0x89, 0x50, 0x4E, 0x47]) then "image/png"
    else if HasBytes(data, 0, [0x47, 0x49, 0x46, 0x38]) then "image/gif"
    else if HasBytes(data, 0, [0xFF, 0xD8]) then "image/jpeg"
    else OCTET_STREAM
  }

  function FromObject(o: Object, now: int): CacheEntry {
    M.CacheEntry(o.data, if o.contentType == OCTET_STREAM then DetectContentType(o.data) else o.contentType, now)
  }

  /** A read; `reachable` is false when the store fails, which reads like a miss. */
  function StoreGet(l2: Store, key: string, reachable: bool, now: int): Option<CacheEntry> {
    match Sanitized(key)
    case None => None
    case Some(k) => if reachable && k in l2 then Some(FromObject(l2[k], now)) else None
  }

  function StorePut(l2: Store, key: string, e: CacheEntry): Store {
    match Sanitized(key)
    case None => l2
    case Some(k) => l2[k := Object(e.data, e.contentType)]
  }

  function StoreDelete(l2: Store, key: string): Store {
    match Sanitized(key)
    case None => l2
    case Some(k) => l2 - {k}
  }

  type PendingWrite = (string, CacheEntry)

  /** The whole state: memory entries, store objects, and the store writes still under way. */
  datatype Tier = Tier(l1: M.Slots, l2: Store, pending: multiset<PendingWrite>)

  const EMPTY: Tier := Tier([], map[], multiset{})

  // The atomic steps of the cache operations. A read that misses in memory is three of them.

  function ReadMemory(t: Tier, key: string): (Tier, Option<CacheEntry>) {
    (t.(l1 := M.Touched(t.l1, key)), M.Lookup(t.l1, key))
  }

  function Promote(t: Tier, key: string, e: CacheEntry, max: nat): Tier {
    t.(l1 := M.Stored(t.l1, key, e, max))
  }

  function Written(t: Tier, key: string, e: CacheEntry, max: nat): Tier {
    t.(l1 := M.Stored(t.l1, key, e, max), pending := t.pending + multiset{(key, e)})
  }

  /** One write under way reaches the store, or is lost. */
  function Land(t: Tier, w: PendingWrite, reached: bool): Tier
    requires w in t.pending
  {
    t.(pending := t.pending - multiset{w}, l2 := if reached then StorePut(t.l2, w.0, w.1) else t.l2)
  }

  /** `TieredCache`, with each method run to its end before the next one starts. */
  class TieredCache {
    const l1: M.MemoryCache
    var l2: Store
    var pending: multiset<PendingWrite>

    ghost predicate Valid()
      reads this, l1
    {
      l1.Valid()
    }

    ghost function State(): Tier
      reads this, l1
    {
      Tier(l1.slots, l2, pending)
    }

    constructor (l1: M.MemoryCache)
      requires l1.Valid() && l1.slots == []
      ensures Valid() && State() == EMPTY && this.l1 == l1
    {
      this.l1 := l1;
      l2 := map[];
      pending := multiset{};
    }

    method Get(key: string, reachable: bool, now: int) returns (entry: Option<CacheEntry>)
      requires Valid()
      modifies this, l1
      ensures Valid() && l2 == old(l2) && pending == old(pending)
      ensures entry == match old(ReadMemory(State(), key)).1
                       case Some(e) => Some(e)
                       case None => StoreGet(old(l2), key, reachable, now)
      ensures State() == match (old(ReadMemory(State(), key)).1, entry)
                         case (None, Some(e)) => Promote(old(State()), key, e, l1.maxSizeBytes)
                         case _ => old(ReadMemory(State(), key)).0
    {
      entry := l1.Get(key);
      if entry.Some? {
        return;
      }
      entry := StoreGet(l2, key, reachable, now);
      if entry.Some? {
        l1.Put(key, entry.value);
      }
    }

    method Put(key: string, entry: CacheEntry)
      requires Valid()
      modifies this, l1
      ensures Valid() && State() == Written(old(State()), key, entry, l1.maxSizeBytes)
    {
      l1.Put(key, entry);
      pending := pending + multiset{(key, entry)};
    }

    /** The spawned task of one earlier `Put`. */
    method FinishWrite(w: PendingWrite, reached: bool)
      requires Valid() && w in pending
      modifies this
      ensures Valid() && State() == Land(old(State()), w, reached)
    {
      pending := pending - multiset{w};
      if reached {
        l2 := StorePut(l2, w.0, w.1);
      }
    }

    /** Both levels are always asked; `reported` is the answer of the store. Writes under way are not stopped. */
    method Delete(key: string, reachable: bool, reported: bool) returns (existed: bool)
      requires Valid()
      modifies this, l1
      ensures Valid() && pending == old(pending)
      ensures existed == (M.Lookup(old(l1.slots), key).Some? || (reachable && Sanitized(key).Some? && reported))
      ensures l1.slots == M.Without(old(l1.slots), key)
      ensures l2 == if reachable then StoreDelete(old(l2), key) else old(l2)
    {
      var d1 := l1.Delete(key);
      var d2 := false;
      if reachable && Sanitized(key).Some? {
        l2 := StoreDelete(l2, key);
        d2 := reported;
      }
      existed := d1 || d2;
    }

    /** Only the memory level forgets: the store ignores a clear. */
    method Clear()
      requires Valid()
      modifies this, l1
      ensures Valid() && State() == old(State()).(l1 := [])
    {
      l1.Clear();
    }

    method Size() returns (n: nat)
      ensures n == |l1.slots|
    {
      n := l1.Size();
    }
  }

  // ---------------------------------------------------------------------------
  // What the store gives back
  // ---------------------------------------------------------------------------

  /** A written object is read back under every key with its object key, and no other read changes. */
  lemma StoredReadsBack(l2: Store, key: string, e: CacheEntry, other: string, now: int)
    ensures StoreGet(StorePut(l2, key, e), other, true, now)
         == if Sanitized(key).Some? && Sanitized(key) == Sanitized(other)
            then Some(M.CacheEntry(e.data, if e.contentType == OCTET_STREAM then DetectContentType(e.data)
                                           else e.contentType, now))
            else StoreGet(l2, other, true, now)
    ensures StoreGet(StoreDelete(l2, key), other, true, now)
         == if Sanitized(key).Some? && Sanitized(key) == Sanitized(other) then None
            else StoreGet(l2, other, true, now)
    ensures StoreGet(l2, other, false, now) == None
  {
    hide Sanitized, DetectContentType;
  }

  function Ascii(text: string): seq<U8> {
    seq(|text|, i requires 0 <= i < |text| => text[i] as int % 256)
  }

  /** The signatures that name a content type: those of WebP, PNG, GIF and JPEG; other starts name none. */
  lemma SignaturesNameTypes(data: seq<U8>)
    ensures HasBytes(data, 0, Ascii("RIFF")) && HasBytes(data, 8, Ascii("WEBP")) ==>
      DetectContentType(data) == "image/webp"
    ensures HasBytes(data, 0, [0x89] + Ascii("PNG\r\n") + [0x1A, 0x0A]) ==> DetectContentType(data) == "image/png"
    ensures HasBytes(data, 0, Ascii("GIF87a")) || HasBytes(data, 0, Ascii("GIF89a")) ==>
      DetectContentType(data) == "image/gif"
    ensures HasBytes(data, 0, [0xFF, 0xD8, 0xFF]) && !HasBytes(data, 4, Ascii("ftyp")) ==>
      DetectContentType(data) == "image/jpeg"
    ensures (|data| > 0 ==> data[0] !in {0x52, 0x89, 0x47, 0xFF}) && !HasBytes(data, 4, Ascii("ftyp")) ==>
      DetectContentType(data) == OCTET_STREAM
  {
    Names();
    hide Ascii, DetectContentType;
    if HasBytes(data, 0, [0x89] + Ascii("PNG\r\n") + [0x1A, 0x0A]) {
      assert [0x89] + Ascii("PNG\r\n") + [0x1A, 0x0A] == [0x89, 0x50, 0x4E, 0x47] + [0x0D, 0x0A, 0x1A, 0x0A];
      HasBoth(data, 0, [0x89, 0x50, 0x4E, 0x47], [0x0D, 0x0A, 0x1A, 0x0A]);
      assert data[4] == data[4..8][0];
    }
    if HasBytes(data, 0, Ascii("GIF87a")) { GifSignature(data, [0x37, 0x61]); }
    if HasBytes(data, 0, Ascii("GIF89a")) { GifSignature(data, [0x39, 0x61]); }
    ShortSignature(data);
  }

  /** And the box types of AVIF and HEIF, still and animated. */
  lemma BoxesNameTypes(data: seq<U8>)
    ensures HasBytes(data, 4, Ascii("ftypavif")) || HasBytes(data, 4, Ascii("ftypavis")) ==>
      DetectContentType(data) == "image/avif"
    ensures HasBytes(data, 4, Ascii("ftypheic")) || HasBytes(data, 4, Ascii("ftypheix")) ==>
      DetectContentType(data) == "image/avif"
    ensures HasBytes(data, 4, Ascii("ftypmif1")) ==> DetectContentType(data) == "image/avif"
  {
    BoxNames();
    hide Ascii, DetectContentType, HasBytes;
    if HasBytes(data, 4, Ascii("ftypavif")) { HeifSignature(data, [0x61, 0x76, 0x69, 0x66]); }
    if HasBytes(data, 4, Ascii("ftypavis")) { HeifSignature(data, [0x61, 0x76, 0x69, 0x73]); }
    if HasBytes(data, 4, Ascii("ftypheic")) { HeifSignature(data, [0x68, 0x65, 0x69, 0x63]); }
    if HasBytes(data, 4, Ascii("ftypheix")) { HeifSignature(data, [0x68, 0x65, 0x69, 0x78]); }
    if HasBytes(data, 4, Ascii("ftypmif1")) { HeifSignature(data, [0x6D, 0x69, 0x66, 0x31]); }
  }

  lemma BoxNames()
    ensures Ascii("ftypavif") == [0x66, 0x74, 0x79, 0x70] + [0x61, 0x76, 0x69, 0x66]
    ensures Ascii("ftypavis") == [0x66, 0x74, 0x79, 0x70] + [0x61, 0x76, 0x69, 0x73]
    ensures Ascii("ftypheic") == [0x66, 0x74, 0x79, 0x70] + [0x68, 0x65, 0x69, 0x63]
    ensures Ascii("ftypheix") == [0x66, 0x74, 0x79, 0x70] + [0x68, 0x65, 0x69, 0x78]
    ensures Ascii("ftypmif1") == [0x66, 0x74, 0x79, 0x70] + [0x6D, 0x69, 0x66, 0x31]
  {}

  lemma HasBoth(data: seq<U8>, at: nat, a: seq<U8>, b: seq<U8>)
    requires HasBytes(data, at, a + b)
    ensures HasBytes(data, at, a) && HasBytes(data, at + |a|, b)
  {
    assert data[at..at + |a| + |b|] == a + b;
    assert data[at..at + |a|] == data[at..at + |a| + |b|][..|a|];
    assert data[at + |a|..at + |a| + |b|] == data[at..at + |a| + |b|][|a|..];
  }

  lemma HeifSignature(data: seq<U8>, brand: seq<U8>)
    requires brand == [0x61, 0x76, 0x69, 0x66] || brand == [0x61, 0x76, 0x69, 0x73]
          || brand == [0x68, 0x65, 0x69, 0x63] || brand == [0x68, 0x65, 0x69, 0x78]
          || brand == [0x6D, 0x69, 0x66, 0x31]
    requires HasBytes(data, 4, [0x66, 0x74, 0x79, 0x70] + brand)
    ensures DetectContentType(data) == "image/avif"
  {
    HasBoth(data, 4, [0x66, 0x74, 0x79, 0x70], brand);
    assert data[8..12][0] == brand[0];
  }

  lemma GifSignature(data: seq<U8>, version: seq<U8>)
    requires version == [0x37, 0x61] || version == [0x39, 0x61]
    requires HasBytes(data, 0, [0x47, 0x49, 0x46, 0x38] + version)
    ensures DetectContentType(data) == "image/gif"
  {
    HasBoth(data, 0, [0x47, 0x49, 0x46, 0x38], version);
    assert data[4] == data[4..6][0];
    ShortSignature(data);
  }

  /** Where the bytes behind the first four are no box type, the first ones decide. */
  lemma ShortSignature(data: seq<U8>)
    ensures HasBytes(data, 0, [0x52, 0x49, 0x46, 0x46]) && HasBytes(data, 8, [0x57, 0x45, 0x42, 0x50]) ==>
      DetectContentType(data) == "image/webp"
    ensures !HasBytes(data, 4, [0x66, 0x74, 0x79, 0x70]) || (|data| >= 5 && data[4] != 0x66) ==>
      && (HasBytes(data, 0, [0x89, 0x50, 0x4E, 0x47]) ==> DetectContentType(data) == "image/png")
      && (HasBytes(data, 0, [0x47, 0x49, 0x46, 0x38]) ==> DetectContentType(data) == "image/gif")
      && (HasBytes(data, 0, [0xFF, 0xD8, 0xFF]) ==> DetectContentType(data) == "image/jpeg")
      && ((|data| > 0 ==> data[0] !in {0x52, 0x89, 0x47, 0xFF}) ==> DetectContentType(data) == OCTET_STREAM)
  {
    assert |data| >= 4 ==> data[..4][0] == data[0] && data[0..4] == data[..4];
    assert |data| >= 8 ==> data[4..8][0] == data[4];
    assert |data| >= 3 ==> data[0..3][..2] == data[0..2];
    assert |data| >= 2 ==> data[0..2][0] == data[0];
  }

  lemma Names()
    ensures Ascii("RIFF") == [0x52, 0x49, 0x46, 0x46] && Ascii("WEBP") == [0x57, 0x45, 0x42, 0x50]
    ensures Ascii("ftyp") == [0x66, 0x74, 0x79, 0x70]
    ensures Ascii("PNG\r\n") == [0x50, 0x4E, 0x47, 0x0D, 0x0A]
    ensures Ascii("GIF87a") == [0x47, 0x49, 0x46, 0x38, 0x37, 0x61]
    ensures Ascii("GIF89a") == [0x47, 0x49, 0x46, 0x38, 0x39, 0x61]
  {}
}
