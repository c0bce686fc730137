/**
 * `ApiKeyManager`: API keys kept encrypted in the storage manager, with an
 * in-memory cache of the plaintext that is trusted for 30 minutes.
 *
 * `encryptText` and `decryptText` are calls into WebCrypto: the encrypted
 * form is an input of `SaveApiKey` (None where `encryptText` rejects), and
 * decryption is a function parameter that yields `""` on failure, as
 * `decryptText` does. The clock (`Date.now()`) is the parameter `now`.
 */
module ApiKeys {
  import opened Wrappers
  import opened Values
  import Text
  import Storage

  datatype KeyType = GeminiKey | YouTubeKey

  /** The storage key of each key type (the enum's string values). */
  function StorageKey(t: KeyType): string {
    match t
    case GeminiKey => "geminiApiKey"
    case YouTubeKey => "youtubeApiKey"
  }

  /** 30 minutes, in milliseconds. */
  const KeyExpiryTime: int := 30 * 60 * 1000

  datatype KeyCache = KeyCache(value: string, timestamp: int)

  type Cache = map<KeyType, KeyCache>

  /** `!key || key.trim() === ''`. */
  function IsBlank(key: string): (r: bool)
    ensures r <==> Text.AllWhitespace(key)
  {
    Text.TrimShape(key);
    key == "" || Text.Trim(key) == ""
  }

  /** The cache entry for `t` exists and is younger than the expiry time. */
  function IsFresh(cache: Cache, t: KeyType, now: int): (r: bool)
    ensures r ==> t in cache && now < cache[t].timestamp + KeyExpiryTime
    ensures t !in cache ==> !r
  {
    t in cache && now - cache[t].timestamp < KeyExpiryTime
  }

  /** Two caches agree on every key type other than `t`. */
  predicate SameExcept(a: Cache, b: Cache, t: KeyType) {
    forall u :: u != t ==> (u in a <==> u in b) && (u in a ==> a[u] == b[u])
  }

  /** A result together with the cache and the storage tiers after the call. */
  datatype Step<T> = Step(result: T, cache: Cache, tiers: Storage.Tiers)

  /** `saveApiKey(type, key)`. */
  function SaveSpec(c: Storage.Context, cache: Cache, tiers: Storage.Tiers, t: KeyType, key: string,
                    encrypted: Option<string>, now: int): (r: Step<bool>)
    ensures SameExcept(cache, r.cache, t)
    ensures IsBlank(key) ==>
      (r.result && t !in r.cache && r.tiers == Storage.RemoveSpec(c, tiers, StorageKey(t)).after)
    ensures !IsBlank(key) && encrypted.None? ==> !r.result && r.cache == cache && r.tiers == tiers
    ensures !IsBlank(key) && encrypted.Some? ==>
      var stored := Storage.SetSpec(c, tiers, StorageKey(t), VStr(encrypted.value));
      r.result == stored.result && r.tiers == stored.after
      && (r.result ==> t in r.cache && r.cache[t] == KeyCache(key, now))
      && (!r.result ==> r.cache == cache)
  {
    if IsBlank(key) then
      var removed := Storage.RemoveSpec(c, tiers, StorageKey(t));
      Step(true, cache - {t}, removed.after)
    else if encrypted.None? then
      Step(false, cache, tiers)
    else
      var stored := Storage.SetSpec(c, tiers, StorageKey(t), VStr(encrypted.value));
      Step(stored.result, if stored.result then cache[t := KeyCache(key, now)] else cache, stored.after)
  }

  /** `getApiKey(type)`. */
  function GetSpec(c: Storage.Context, cache: Cache, tiers: Storage.Tiers, t: KeyType, now: int,
                   decrypt: Value -> string): (r: Step<string>)
    ensures SameExcept(cache, r.cache, t)
    ensures IsFresh(cache, t, now) ==> r.result == cache[t].value && r.cache == cache && r.tiers == tiers
    ensures !IsFresh(cache, t, now) ==>
      var read := Storage.GetSpec(c, tiers, StorageKey(t));
      r.tiers == read.after
      && (!TruthyOpt(read.result) ==> r.result == "" && r.cache == cache)
      && (TruthyOpt(read.result) ==> r.result == decrypt(read.result.value))
      && (r.result != "" ==> t in r.cache && r.cache[t] == KeyCache(r.result, now))
      && (r.result == "" ==> r.cache == cache)
  {
    if IsFresh(cache, t, now) then Step(cache[t].value, cache, tiers)
    else
      var read := Storage.GetSpec(c, tiers, StorageKey(t));
      if !TruthyOpt(read.result) then Step("", cache, read.after)
      else
        var key := decrypt(read.result.value);
        Step(key, if key != "" then cache[t := KeyCache(key, now)] else cache, read.after)
  }

  class ApiKeyManager {
    var keyCache: Cache
    const store: Storage.StorageManager

    constructor (store: Storage.StorageManager)
      ensures keyCache == map[] && this.store == store
    {
      keyCache := map[];
      this.store := store;
    }

    method SaveApiKey(t: KeyType, key: string, encrypted: Option<string>, now: int) returns (ok: bool)
      modifies this, store
      ensures Step(ok, keyCache, store.State())
           == old(SaveSpec(store.ctx, keyCache, store.State(), t, key, encrypted, now))
    {
      if key == "" || Text.Trim(key) == "" {
        var _ := store.Remove(StorageKey(t));
        keyCache := keyCache - {t};
        return true;
      }
      if encrypted.None? {
        return false;
      }
      var saveResult := store.Set(StorageKey(t), VStr(encrypted.value));
      if saveResult {
        keyCache := keyCache[t := KeyCache(key, now)];
      }
      return saveResult;
    }

    method GetApiKey(t: KeyType, now: int, decrypt: Value -> string) returns (key: string)
      modifies this, store
      ensures Step(key, keyCache, store.State())
           == old(GetSpec(store.ctx, keyCache, store.State(), t, now, decrypt))
    {
      if t in keyCache && now - keyCache[t].timestamp < KeyExpiryTime {
        return keyCache[t].value;
      }
      var encryptedKey := store.Get(StorageKey(t));
      if encryptedKey.None? || !Truthy(encryptedKey.value) {
        return "";
      }
      key := decrypt(encryptedKey.value);
      if key != "" {
        keyCache := keyCache[t := KeyCache(key, now)];
      }
    }

    method HasApiKey(t: KeyType, now: int, decrypt: Value -> string) returns (has: bool)
      modifies this, store
      ensures var r := old(GetSpec(store.ctx, keyCache, store.State(), t, now, decrypt));
        has == (r.result != "") && keyCache == r.cache && store.State() == r.tiers
    {
      var key := GetApiKey(t, now, decrypt);
      has := key != "";
    }

    method ClearCache()
      modifies this
      ensures keyCache == map[]
    {
      keyCache := map[];
    }
  }

  /** Within 30 minutes of a successful save, `getApiKey` answers from the cache without touching storage. */
  lemma SaveThenGetFromCache(c: Storage.Context, cache: Cache, tiers: Storage.Tiers, t: KeyType, key: string,
                             encrypted: Option<string>, now: int, later: int, decrypt: Value -> string)
    requires !IsBlank(key) && now <= later < now + KeyExpiryTime
    requires SaveSpec(c, cache, tiers, t, key, encrypted, now).result
    ensures var s := SaveSpec(c, cache, tiers, t, key, encrypted, now);
      var g := GetSpec(c, s.cache, s.tiers, t, later, decrypt);
      g.result == key && g.tiers == s.tiers && g.cache == s.cache
  {
  }

  /**
   * With the cache cleared (or expired), a saved key is read back from storage
   * and decrypted: the round trip holds when decryption inverts encryption and
   * storage reads back what `set` wrote.
   */
  lemma SaveThenGetFromStorage(c: Storage.Context, cache: Cache, tiers: Storage.Tiers, t: KeyType, key: string,
                               encrypted: string, now: int, later: int, decrypt: Value -> string)
    requires !IsBlank(key)
    requires SaveSpec(c, cache, tiers, t, key, Some(encrypted), now).result
    requires encrypted != "" && decrypt(VStr(encrypted)) == key
    requires !c.syncTier.readFails
    requires c.syncTier.writeFails ==> StorageKey(t) !in tiers.sync && !c.localTier.readFails
    requires c.syncTier.writeFails && c.localTier.writeFails ==>
      StorageKey(t) !in tiers.local && c.stringify(VStr(encrypted)) != ""
      && c.parse(c.stringify(VStr(encrypted))) == Some(VStr(encrypted))
    ensures var s := SaveSpec(c, cache, tiers, t, key, Some(encrypted), now);
      var g := GetSpec(c, map[], s.tiers, t, later, decrypt);
      g.result == key && t in g.cache && g.cache[t] == KeyCache(key, later)
  {
    var k := StorageKey(t);
    assert k != "_test";
    Storage.SetThenGet(c, tiers, k, VStr(encrypted));
  }

  /** Deleting a key (saving a blank one) makes the next uncached `getApiKey` yield `""` once the removal succeeded. */
  lemma DeleteThenGet(c: Storage.Context, cache: Cache, tiers: Storage.Tiers, t: KeyType, blank: string,
                      now: int, later: int, decrypt: Value -> string)
    requires IsBlank(blank)
    requires !c.syncTier.writeFails && !c.localTier.writeFails
    ensures var s := SaveSpec(c, cache, tiers, t, blank, None, now);
      GetSpec(c, s.cache, s.tiers, t, later, decrypt).result == ""
  {
    Storage.RemoveThenGet(c, tiers, StorageKey(t));
  }

  /** Saving a blank key reports success even when the stored key could not be removed. */
  lemma BlankSaveReportsSuccessWhenRemoveFails(c: Storage.Context, cache: Cache, tiers: Storage.Tiers,
                                              t: KeyType, blank: string, now: int)
    requires IsBlank(blank) && c.syncTier.writeFails
    ensures var s := SaveSpec(c, cache, tiers, t, blank, None, now);
      s.result && s.tiers == tiers
  {
  }
}
