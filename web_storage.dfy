/**
 * `window.localStorage` as the storage manager sees it: string entries in the
 * order `localStorage.key(i)` enumerates them. `setItem` keeps the position of
 * an existing key and appends a new one; `removeItem` takes the key out, so
 * the entries after it move down by one index.
 */
module WebStorage {
  import opened Wrappers
  import Text

  type Entry = (string, string)

  predicate HasKey(ws: seq<Entry>, k: string) {
    exists i :: 0 <= i < |ws| && ws[i].0 == k
  }

  /** `localStorage.getItem(k)`: the value of the (first) entry with key `k`. */
  function GetItem(ws: seq<Entry>, k: string): (r: Option<string>)
    ensures r.Some? <==> HasKey(ws, k)
    ensures r.Some? ==> (k, r.value) in ws
  {
    if ws == [] then None
    else if ws[0].0 == k then Some(ws[0].1)
    else
      var r := GetItem(ws[1..], k);
      assert forall i :: 1 <= i < |ws| ==> ws[i] == ws[1..][i - 1];
      r
  }

  /** `localStorage.setItem(k, v)`. */
  function SetItem(ws: seq<Entry>, k: string, v: string): (r: seq<Entry>)
    ensures HasKey(ws, k) ==> |r| == |ws|
    ensures !HasKey(ws, k) ==> r == ws + [(k, v)]
  {
    if HasKey(ws, k) then
      seq(|ws|, i requires 0 <= i < |ws| => if ws[i].0 == k then (k, v) else ws[i])
    else ws + [(k, v)]
  }

  /** `localStorage.removeItem(k)`. */
  function RemoveItem(ws: seq<Entry>, k: string): (r: seq<Entry>)
    ensures |r| <= |ws|
    ensures forall e :: e in r <==> e in ws && e.0 != k
  {
    if ws == [] then []
    else if ws[0].0 == k then RemoveItem(ws[1..], k)
    else [ws[0]] + RemoveItem(ws[1..], k)
  }

  lemma GetAfterSet(ws: seq<Entry>, k: string, v: string)
    ensures GetItem(SetItem(ws, k, v), k) == Some(v)
  {
    var r := SetItem(ws, k, v);
    assert HasKey(r, k) by {
      if HasKey(ws, k) {
        var i :| 0 <= i < |ws| && ws[i].0 == k;
        assert r[i].0 == k;
      } else {
        assert r[|ws|] == (k, v);
      }
    }
    var got := GetItem(r, k);
    assert forall e :: e in r && e.0 == k ==> e == (k, v);
  }

  lemma {:induction false} GetAfterSetOther(ws: seq<Entry>, k: string, v: string, other: string)
    requires other != k
    ensures GetItem(SetItem(ws, k, v), other) == GetItem(ws, other)
  {
    if HasKey(ws, k) {
      GetItemOfMapped(ws, SetItem(ws, k, v), k, other);
    } else {
      GetItemAppend(ws, (k, v), other);
    }
  }

  lemma {:induction false} GetItemOfMapped(ws: seq<Entry>, r: seq<Entry>, k: string, other: string)
    requires other != k && |r| == |ws|
    requires forall i :: 0 <= i < |ws| ==> (if ws[i].0 == k then r[i].0 == k else r[i] == ws[i])
    ensures GetItem(r, other) == GetItem(ws, other)
  {
    if ws != [] {
      GetItemOfMapped(ws[1..], r[1..], k, other);
    }
  }

  lemma {:induction false} GetItemAppend(ws: seq<Entry>, e: Entry, other: string)
    requires e.0 != other
    ensures GetItem(ws + [e], other) == GetItem(ws, other)
  {
    if ws == [] {
      assert ([] + [e])[1..] == [];
    } else {
      assert (ws + [e])[1..] == ws[1..] + [e];
      GetItemAppend(ws[1..], e, other);
    }
  }

  lemma GetAfterRemove(ws: seq<Entry>, k: string, other: string)
    ensures GetItem(RemoveItem(ws, k), k) == None
    ensures other != k ==> GetItem(RemoveItem(ws, k), other) == GetItem(ws, other)
  {
    if other != k {
      GetOtherAfterRemove(ws, k, other);
    }
  }

  lemma {:induction false} GetOtherAfterRemove(ws: seq<Entry>, k: string, other: string)
    requires other != k
    ensures GetItem(RemoveItem(ws, k), other) == GetItem(ws, other)
  {
    if ws != [] {
      GetOtherAfterRemove(ws[1..], k, other);
      if ws[0].0 != k {
        assert ([ws[0]] + RemoveItem(ws[1..], k))[1..] == RemoveItem(ws[1..], k);
      }
    }
  }

  /** The entries whose key does not start with `prefix`, in their order. */
  function Unprefixed(ws: seq<Entry>, prefix: string): (r: seq<Entry>)
    ensures forall e :: e in r <==> e in ws && !Text.StartsWith(e.0, prefix)
  {
    if ws == [] then []
    else if Text.StartsWith(ws[0].0, prefix) then Unprefixed(ws[1..], prefix)
    else [ws[0]] + Unprefixed(ws[1..], prefix)
  }

  /** Removing a key with the prefix leaves the unprefixed entries, and their order, alone. */
  lemma {:induction false} UnprefixedAfterRemove(ws: seq<Entry>, k: string, prefix: string)
    requires Text.StartsWith(k, prefix)
    ensures Unprefixed(RemoveItem(ws, k), prefix) == Unprefixed(ws, prefix)
  {
    if ws != [] {
      UnprefixedAfterRemove(ws[1..], k, prefix);
      if ws[0].0 != k {
        assert ([ws[0]] + RemoveItem(ws[1..], k))[1..] == RemoveItem(ws[1..], k);
      }
    }
  }
}
