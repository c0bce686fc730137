/**
 * `StorageManager`: one key/value interface over three tiers, read in the
 * order extension sync storage, extension local storage, and finally the page's
 * `window.localStorage` under the prefix `fallback_music_x1_`.
 *
 * The pure functions `GetSpec`, `SetSpec`, `RemoveSpec` and `ClearSpec` give
 * each operation's result and the tiers afterwards; the class
 * `StorageManager` performs the operations step by step and is proved to
 * agree with them; the lemmas state what the operations promise together.
 */
module Storage {
  import opened Wrappers
  import opened Values
  import Text
  import WebStorage

  const FallbackPrefix: string := "fallback_music_x1_"
  /** The key `isLocalStorageAvailable` writes and removes to test `localStorage`. */
  const TestKey: string := FallbackPrefix + "_test"

  /** Whether a tier's reads and whether its writes (set and remove) reject. */
  datatype Health = Health(readFails: bool, writeFails: bool)

  /**
   * What the storage manager cannot see but depends on: which globals exist
   * (`self`, `window`, `document`, `localStorage`), whether the `localStorage`
   * self-test succeeds, whether the fallback `setItem` of `set` throws (a
   * quota exceeded by the value after the small self-test passed), how each
   * extension storage tier behaves, and `JSON.stringify` / `JSON.parse`
   * (None where `JSON.parse` throws).
   */
  datatype Context = Context(
    hasSelf: bool, hasWindow: bool, hasDocument: bool,
    hasLocalStorage: bool, localStorageWorks: bool, fallbackWriteFails: bool,
    syncTier: Health, localTier: Health,
    stringify: Value -> string, parse: string -> Option<Value>)

  /** The contents of the three tiers. */
  datatype Tiers = Tiers(sync: map<string, Value>, local: map<string, Value>, web: seq<WebStorage.Entry>)

  /** An operation's result together with the tiers after it. */
  datatype Outcome<T> = Outcome(result: T, after: Tiers)

  /** `isBackgroundContext`: a service worker, or a page without `document` or `window`. */
  function IsBackgroundContext(c: Context): (r: bool)
    ensures r <==> !c.hasWindow || !c.hasDocument
  {
    if c.hasSelf && !c.hasWindow then true
    else if !c.hasDocument || !c.hasWindow then true
    else false
  }

  /** The answer of `isLocalStorageAvailable`. */
  function LocalStorageAvailable(c: Context): (r: bool)
    ensures r <==> c.hasWindow && c.hasDocument && c.hasLocalStorage && c.localStorageWorks
  {
    if IsBackgroundContext(c) then false
    else c.hasLocalStorage && c.localStorageWorks
  }

  /**
   * `localStorage` after `isLocalStorageAvailable`: a successful self-test sets
   * and then removes `TestKey`, so an entry under that key does not survive it.
   */
  function Probe(c: Context, web: seq<WebStorage.Entry>): (r: seq<WebStorage.Entry>)
    ensures !LocalStorageAvailable(c) ==> r == web
    ensures forall e :: e in r <==> e in web && (LocalStorageAvailable(c) ==> e.0 != TestKey)
  {
    if LocalStorageAvailable(c) then WebStorage.RemoveItem(web, TestKey) else web
  }

  function FallbackKey(key: string): string {
    FallbackPrefix + key
  }

  /** A fallback string is returned JSON-parsed when it parses, else as the raw string. */
  function Decode(c: Context, raw: string): Value {
    match c.parse(raw)
    case Some(v) => v
    case None => VStr(raw)
  }

  /** `get(key)`; None is the `null` it resolves to. */
  function GetSpec(c: Context, t: Tiers, key: string): (r: Outcome<Option<Value>>)
    ensures r.after.sync == t.sync && r.after.local == t.local
    ensures r.after.web == t.web || r.after.web == Probe(c, t.web)
    ensures r.result.Some? ==> !c.syncTier.readFails
  {
    if c.syncTier.readFails then Outcome(None, t)
    else if key in t.sync then Outcome(Some(t.sync[key]), t)
    else if c.localTier.readFails then Outcome(None, t)
    else if key in t.local then Outcome(Some(t.local[key]), t)
    else
      var web := Probe(c, t.web);
      var raw := WebStorage.GetItem(web, FallbackKey(key));
      var found := LocalStorageAvailable(c) && raw.Some? && raw.value != "";
      Outcome(if found then Some(Decode(c, raw.value)) else None, t.(web := web))
  }

  /** `set(key, value)`: the first tier whose write succeeds takes the value. */
  function SetSpec(c: Context, t: Tiers, key: string, v: Value): (r: Outcome<bool>)
    ensures !r.result <==> (c.syncTier.writeFails && c.localTier.writeFails
                            && (!LocalStorageAvailable(c) || c.fallbackWriteFails))
    ensures !r.result ==> r.after == t.(web := Probe(c, t.web))
    ensures !c.syncTier.writeFails ==> r.after == t.(sync := t.sync[key := v])
    ensures c.syncTier.writeFails ==> r.after.sync == t.sync
    ensures c.syncTier.writeFails && !c.localTier.writeFails ==> r.after == t.(local := t.local[key := v])
  {
    if !c.syncTier.writeFails then Outcome(true, t.(sync := t.sync[key := v]))
    else if !c.localTier.writeFails then Outcome(true, t.(local := t.local[key := v]))
    else
      var web := Probe(c, t.web);
      if LocalStorageAvailable(c) && !c.fallbackWriteFails then
        Outcome(true, t.(web := WebStorage.SetItem(web, FallbackKey(key), c.stringify(v))))
      else Outcome(false, t.(web := web))
  }

  /** `remove(key)`: sync, then local, then (when available) the fallback entry. */
  function RemoveSpec(c: Context, t: Tiers, key: string): (r: Outcome<bool>)
    ensures r.result <==> !c.syncTier.writeFails && !c.localTier.writeFails
    ensures r.result ==> key !in r.after.sync && key !in r.after.local
    ensures r.result && LocalStorageAvailable(c) ==> !WebStorage.HasKey(r.after.web, FallbackKey(key))
    ensures forall k :: k != key && k in t.sync ==> k in r.after.sync && r.after.sync[k] == t.sync[k]
    ensures forall k :: k != key && k in t.local ==> k in r.after.local && r.after.local[k] == t.local[k]
  {
    if c.syncTier.writeFails then Outcome(false, t)
    else
      var t1 := t.(sync := t.sync - {key});
      if c.localTier.writeFails then Outcome(false, t1)
      else
        var t2 := t1.(local := t.local - {key});
        var web := Probe(c, t.web);
        if LocalStorageAvailable(c) then
          var r := WebStorage.RemoveItem(web, FallbackKey(key));
          assert WebStorage.GetItem(r, FallbackKey(key)) == None by {
            WebStorage.GetAfterRemove(web, FallbackKey(key), FallbackKey(key));
          }
          Outcome(true, t2.(web := r))
        else Outcome(true, t2)
  }

  /**
   * The loop of `clear` over `localStorage`, as written: index `i` advances
   * after every visit, also after a removal has moved the next entry down to `i`.
   */
  function Sweep(ws: seq<WebStorage.Entry>, i: nat): (r: seq<WebStorage.Entry>)
    ensures |r| <= |ws|
    ensures forall e :: e in ws && !Text.StartsWith(e.0, FallbackPrefix) ==> e in r
    decreases |ws| - i
  {
    if i >= |ws| then ws
    else if ws[i].0 != "" && Text.StartsWith(ws[i].0, FallbackPrefix) then
      Sweep(WebStorage.RemoveItem(ws, ws[i].0), i + 1)
    else Sweep(ws, i + 1)
  }

  /** `clear()`: both extension tiers emptied, then the fallback entries swept. */
  function ClearSpec(c: Context, t: Tiers): (r: Outcome<bool>)
    ensures r.result ==> r.after.sync == map[] && r.after.local == map[]
    ensures !r.result ==> r.after.local == t.local
  {
    if c.syncTier.readFails || c.localTier.readFails then Outcome(false, t)
    else if |t.sync| > 0 && c.syncTier.writeFails then Outcome(false, t)
    else
      var t1 := t.(sync := map[]);
      if |t.local| > 0 && c.localTier.writeFails then Outcome(false, t1)
      else
        var t2 := t1.(local := map[]);
        var web := Probe(c, t.web);
        if LocalStorageAvailable(c) then Outcome(true, t2.(web := Sweep(web, 0)))
        else Outcome(true, t2)
  }

  class StorageManager {
    const ctx: Context
    var sync: map<string, Value>
    var local: map<string, Value>
    var web: seq<WebStorage.Entry>

    function State(): Tiers
      reads this
    {
      Tiers(sync, local, web)
    }

    constructor (ctx: Context, initial: Tiers)
      ensures this.ctx == ctx && State() == initial
    {
      this.ctx := ctx;
      sync, local, web := initial.sync, initial.local, initial.web;
    }

    /** The availability self-test: write, read back and remove `TestKey`. */
    method IsLocalStorageAvailable() returns (available: bool)
      modifies this`web
      ensures available == LocalStorageAvailable(ctx)
      ensures web == Probe(ctx, old(web))
    {
      if IsBackgroundContext(ctx) {
        return false;
      }
      if !ctx.hasLocalStorage || !ctx.localStorageWorks {
        return false;
      }
      web := WebStorage.SetItem(web, TestKey, "test");
      var testValue := WebStorage.GetItem(web, TestKey);
      WebStorage.GetAfterSet(old(web), TestKey, "test");
      web := WebStorage.RemoveItem(web, TestKey);
      SetThenRemove(old(web), TestKey, "test");
      available := testValue == Some("test");
    }

    method Get(key: string) returns (r: Option<Value>)
      modifies this`web
      ensures Outcome(r, State()) == old(GetSpec(ctx, State(), key))
    {
      if ctx.syncTier.readFails {
        return None;
      }
      if key in sync {
        return Some(sync[key]);
      }
      if ctx.localTier.readFails {
        return None;
      }
      if key in local {
        return Some(local[key]);
      }
      var available := IsLocalStorageAvailable();
      r := None;
      if available {
        var raw := WebStorage.GetItem(web, FallbackKey(key));
        if raw.Some? && raw.value != "" {
          match ctx.parse(raw.value)
          case Some(v) => r := Some(v);
          case None => r := Some(VStr(raw.value));
        }
      }
    }

    method Set(key: string, v: Value) returns (ok: bool)
      modifies this
      ensures Outcome(ok, State()) == old(SetSpec(ctx, State(), key, v))
    {
      if !ctx.syncTier.writeFails {
        sync := sync[key := v];
        return true;
      }
      if !ctx.localTier.writeFails {
        local := local[key := v];
        return true;
      }
      var available := IsLocalStorageAvailable();
      if available && !ctx.fallbackWriteFails {
        web := WebStorage.SetItem(web, FallbackKey(key), ctx.stringify(v));
        return true;
      }
      return false;
    }

    method Remove(key: string) returns (ok: bool)
      modifies this
      ensures Outcome(ok, State()) == old(RemoveSpec(ctx, State(), key))
    {
      if ctx.syncTier.writeFails {
        return false;
      }
      sync := sync - {key};
      if ctx.localTier.writeFails {
        return false;
      }
      local := local - {key};
      var available := IsLocalStorageAvailable();
      if available {
        web := WebStorage.RemoveItem(web, FallbackKey(key));
      }
      return true;
    }

    method Clear() returns (ok: bool)
      modifies this
      ensures Outcome(ok, State()) == old(ClearSpec(ctx, State()))
    {
      ghost var t0 := State();
      if ctx.syncTier.readFails || ctx.localTier.readFails {
        return false;
      }
      if |sync| > 0 {
        if ctx.syncTier.writeFails {
          return false;
        }
        sync := map[];
      }
      if |local| > 0 {
        if ctx.localTier.writeFails {
          return false;
        }
        local := map[];
      }
      var available := IsLocalStorageAvailable();
      if available {
        ghost var start := web;
        var i := 0;
        while i < |web|
          invariant sync == map[] && local == map[]
          invariant Sweep(web, i) == Sweep(start, 0)
          decreases |web| - i
        {
          var k := web[i].0;
          if k != "" && Text.StartsWith(k, FallbackPrefix) {
            web := WebStorage.RemoveItem(web, k);
          }
          i := i + 1;
        }
        assert web == Sweep(start, 0);
      }
      assert ClearSpec(ctx, t0) == Outcome(true, State());
      return true;
    }
  }

  /** Setting and then removing a key leaves the entries as removing it alone would. */
  lemma SetThenRemove(ws: seq<WebStorage.Entry>, k: string, v: string)
    ensures WebStorage.RemoveItem(WebStorage.SetItem(ws, k, v), k) == WebStorage.RemoveItem(ws, k)
  {
    var s := WebStorage.SetItem(ws, k, v);
    if WebStorage.HasKey(ws, k) {
      RemoveOfMapped(ws, s, k);
    } else {
      RemoveAppended(ws, (k, v));
    }
  }

  lemma {:induction false} RemoveOfMapped(ws: seq<WebStorage.Entry>, s: seq<WebStorage.Entry>, k: string)
    requires |s| == |ws|
    requires forall i :: 0 <= i < |ws| ==> (if ws[i].0 == k then s[i].0 == k else s[i] == ws[i])
    ensures WebStorage.RemoveItem(s, k) == WebStorage.RemoveItem(ws, k)
  {
    if ws != [] {
      RemoveOfMapped(ws[1..], s[1..], k);
    }
  }

  lemma {:induction false} RemoveAppended(ws: seq<WebStorage.Entry>, e: WebStorage.Entry)
    ensures WebStorage.RemoveItem(ws + [e], e.0) == WebStorage.RemoveItem(ws, e.0)
  {
    if ws == [] {
      assert ([] + [e])[1..] == [];
    } else {
      assert (ws + [e])[1..] == ws[1..] + [e];
      RemoveAppended(ws[1..], e);
    }
  }

  lemma FallbackKeyInjective(k: string, k': string)
    requires FallbackKey(k) == FallbackKey(k')
    ensures k == k'
  {
    assert k == FallbackKey(k)[|FallbackPrefix|..];
    assert k' == FallbackKey(k')[|FallbackPrefix|..];
  }

  /** A value `set` reports as stored is what the next `get` returns, under the stated conditions. */
  lemma SetThenGet(c: Context, t: Tiers, k: string, v: Value)
    requires SetSpec(c, t, k, v).result
    requires !c.syncTier.readFails
    requires c.syncTier.writeFails ==> k !in t.sync && !c.localTier.readFails
    requires c.syncTier.writeFails && c.localTier.writeFails ==>
      k !in t.local && k != "_test" && c.stringify(v) != "" && c.parse(c.stringify(v)) == Some(v)
    ensures GetSpec(c, SetSpec(c, t, k, v).after, k).result == Some(v)
  {
    if c.syncTier.writeFails && c.localTier.writeFails {
      var fk := FallbackKey(k);
      var web := Probe(c, t.web);
      var written := WebStorage.SetItem(web, fk, c.stringify(v));
      assert SetSpec(c, t, k, v).after.web == written;
      WebStorage.GetAfterSet(web, fk, c.stringify(v));
      if fk == TestKey {
        FallbackKeyInjective(k, "_test");
      }
      WebStorage.GetAfterRemove(written, TestKey, fk);
    }
  }

  /**
   * A key named `_test` that ends up in `localStorage` is deleted again by the
   * next availability self-test, so `get` never returns it.
   */
  lemma TestKeyIsNeverReadBack(c: Context, t: Tiers)
    ensures GetSpec(c, t, "_test").result == None || "_test" in t.sync || "_test" in t.local
  {
    if !c.syncTier.readFails && "_test" !in t.sync && !c.localTier.readFails && "_test" !in t.local
       && LocalStorageAvailable(c) {
      assert FallbackKey("_test") == TestKey;
      WebStorage.GetAfterRemove(t.web, TestKey, TestKey);
    }
  }

  /** When the sync write fails, an older sync value still shadows the value just written below it. */
  lemma StaleSyncValueShadowsFallbackWrite(c: Context, t: Tiers, k: string, v: Value)
    requires c.syncTier.writeFails && !c.syncTier.readFails && k in t.sync
    ensures GetSpec(c, SetSpec(c, t, k, v).after, k).result == Some(t.sync[k])
  {
  }

  /** After a successful `remove`, `get` finds the key in no tier. */
  lemma RemoveThenGet(c: Context, t: Tiers, k: string)
    requires RemoveSpec(c, t, k).result
    ensures GetSpec(c, RemoveSpec(c, t, k).after, k).result == None
  {
  }

  /** In a background context no operation reads or changes `localStorage`. */
  lemma BackgroundNeverTouchesLocalStorage(c: Context, t: Tiers, k: string, v: Value, otherWeb: seq<WebStorage.Entry>)
    requires IsBackgroundContext(c)
    ensures GetSpec(c, t, k).after == t
    ensures GetSpec(c, t.(web := otherWeb), k).result == GetSpec(c, t, k).result
    ensures SetSpec(c, t, k, v).after.web == t.web
    ensures RemoveSpec(c, t, k).after.web == t.web
    ensures ClearSpec(c, t).after.web == t.web
  {
  }

  /** The sweep removes only entries with the fallback prefix and keeps the others in order. */
  lemma {:induction false} SweepKeepsUnprefixed(ws: seq<WebStorage.Entry>, i: nat)
    ensures WebStorage.Unprefixed(Sweep(ws, i), FallbackPrefix) == WebStorage.Unprefixed(ws, FallbackPrefix)
    ensures forall e :: e in Sweep(ws, i) ==> e in ws
    decreases |ws| - i
  {
    if i < |ws| {
      if ws[i].0 != "" && Text.StartsWith(ws[i].0, FallbackPrefix) {
        var r := WebStorage.RemoveItem(ws, ws[i].0);
        SweepKeepsUnprefixed(r, i + 1);
        WebStorage.UnprefixedAfterRemove(ws, ws[i].0, FallbackPrefix);
      } else {
        SweepKeepsUnprefixed(ws, i + 1);
      }
    }
  }

  /** A successful `clear` empties both extension tiers and leaves foreign `localStorage` entries alone. */
  lemma ClearKeepsForeignEntries(c: Context, t: Tiers)
    requires ClearSpec(c, t).result
    ensures ClearSpec(c, t).after.sync == map[] && ClearSpec(c, t).after.local == map[]
    ensures WebStorage.Unprefixed(ClearSpec(c, t).after.web, FallbackPrefix)
         == WebStorage.Unprefixed(t.web, FallbackPrefix)
  {
    if LocalStorageAvailable(c) {
      var web := Probe(c, t.web);
      assert Text.StartsWith(TestKey, FallbackPrefix);
      WebStorage.UnprefixedAfterRemove(t.web, TestKey, FallbackPrefix);
      SweepKeepsUnprefixed(web, 0);
    }
  }

  /**
   * The sweep as written misses a fallback entry that directly follows another:
   * removing the first moves the second to the index just visited.
   */
  lemma SweepSkipsAdjacentEntry()
    ensures Sweep([(FallbackPrefix + "a", "1"), (FallbackPrefix + "b", "2")], 0)
         == [(FallbackPrefix + "b", "2")]
  {
    var a, b := (FallbackPrefix + "a", "1"), (FallbackPrefix + "b", "2");
    assert a.0 != b.0 by {
      assert a.0[|FallbackPrefix|] == 'a' && b.0[|FallbackPrefix|] == 'b';
    }
    assert Text.StartsWith(a.0, FallbackPrefix);
    assert [a, b][1..] == [b];
    assert WebStorage.RemoveItem([b][1..], a.0) == [];
    assert WebStorage.RemoveItem([b], a.0) == [b];
    assert WebStorage.RemoveItem([a, b], a.0) == [b];
  }

  /**
   * The sweep as evidently intended: visit the indices from the last down to
   * the first, so that a removal never moves an entry not yet visited.
   */
  function SweepFromEnd(ws: seq<WebStorage.Entry>, n: nat): (r: seq<WebStorage.Entry>)
    requires n <= |ws|
    ensures r == WebStorage.Unprefixed(ws[..n], FallbackPrefix) + ws[n..]
    ensures forall e :: e in r && Text.StartsWith(e.0, FallbackPrefix) ==> e in ws[n..]
  {
    if n == 0 then
      assert ws[..0] == [];
      ws
    else if Text.StartsWith(ws[n - 1].0, FallbackPrefix) then
      var r := SweepFromEnd(ws[..n - 1] + ws[n..], n - 1);
      SweepFromEndDropStep(ws, n, r);
      r
    else
      var r := SweepFromEnd(ws, n - 1);
      SweepFromEndKeepStep(ws, n, r);
      r
  }

  /** A step of the intended sweep that removes the fallback entry at index `n - 1`. */
  lemma SweepFromEndDropStep(ws: seq<WebStorage.Entry>, n: nat, r: seq<WebStorage.Entry>)
    requires 0 < n <= |ws| && Text.StartsWith(ws[n - 1].0, FallbackPrefix)
    requires r == WebStorage.Unprefixed((ws[..n - 1] + ws[n..])[..n - 1], FallbackPrefix)
                  + (ws[..n - 1] + ws[n..])[n - 1..]
    requires forall e :: e in r && Text.StartsWith(e.0, FallbackPrefix) ==> e in (ws[..n - 1] + ws[n..])[n - 1..]
    ensures r == WebStorage.Unprefixed(ws[..n], FallbackPrefix) + ws[n..]
    ensures forall e :: e in r && Text.StartsWith(e.0, FallbackPrefix) ==> e in ws[n..]
  {
    var shorter := ws[..n - 1] + ws[n..];
    assert shorter[..n - 1] == ws[..n - 1] && shorter[n - 1..] == ws[n..];
    assert ws[..n] == ws[..n - 1] + [ws[n - 1]];
    UnprefixedSnoc(ws[..n - 1], ws[n - 1]);
  }

  /** A step of the intended sweep that keeps the entry at index `n - 1`. */
  lemma SweepFromEndKeepStep(ws: seq<WebStorage.Entry>, n: nat, r: seq<WebStorage.Entry>)
    requires 0 < n <= |ws| && !Text.StartsWith(ws[n - 1].0, FallbackPrefix)
    requires r == WebStorage.Unprefixed(ws[..n - 1], FallbackPrefix) + ws[n - 1..]
    requires forall e :: e in r && Text.StartsWith(e.0, FallbackPrefix) ==> e in ws[n - 1..]
    ensures r == WebStorage.Unprefixed(ws[..n], FallbackPrefix) + ws[n..]
    ensures forall e :: e in r && Text.StartsWith(e.0, FallbackPrefix) ==> e in ws[n..]
  {
    var e := ws[n - 1];
    assert ws[..n] == ws[..n - 1] + [e];
    UnprefixedSnoc(ws[..n - 1], e);
    assert ws[n - 1..] == [e] + ws[n..];
    forall x | x in r && Text.StartsWith(x.0, FallbackPrefix) ensures x in ws[n..] {
      assert x in [e] + ws[n..] && x != e;
    }
  }

  lemma {:induction false} UnprefixedSnoc(ws: seq<WebStorage.Entry>, e: WebStorage.Entry)
    ensures WebStorage.Unprefixed(ws + [e], FallbackPrefix)
         == WebStorage.Unprefixed(ws, FallbackPrefix) + (if Text.StartsWith(e.0, FallbackPrefix) then [] else [e])
  {
    if ws == [] {
      assert [] + [e] == [e];
      assert [e][1..] == [];
    } else {
      assert (ws + [e])[1..] == ws[1..] + [e];
      UnprefixedSnoc(ws[1..], e);
    }
  }

  /** The intended sweep leaves no fallback entry and every other entry, in order. */
  lemma SweepFromEndRemovesAllFallbackEntries(ws: seq<WebStorage.Entry>)
    ensures SweepFromEnd(ws, |ws|) == WebStorage.Unprefixed(ws, FallbackPrefix)
    ensures forall e :: e in SweepFromEnd(ws, |ws|) ==> !Text.StartsWith(e.0, FallbackPrefix)
  {
    assert ws[..|ws|] == ws;
    assert ws[|ws|..] == [];
  }
}
