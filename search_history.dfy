/** The `useSearchHistory` hook: a move-to-front list of the last serial
    numbers searched, at most 20 long, kept in local storage under
    "sfc-search-history". */
module SearchHistory {
  import opened Wrappers
  import opened Json
  import opened Seqs
  import opened BrowserStorage

  const StorageKey := "sfc-search-history"
  const MaxEntries := 20

  /** `prev.filter(item => item !== sn)` */
  function Without(prev: seq<string>, sn: string): (r: seq<string>)
    ensures sn !in r
    ensures forall k :: 0 <= k < |r| ==> r[k] in prev
    ensures forall k :: 0 <= k < |prev| && prev[k] != sn ==> prev[k] in r
  {
    Filter(prev, (item: string) => item != sn)
  }

  /** The list `addToHistory(sn)` leaves: `[sn, ...filtered].slice(0, 20)`. */
  function Added(prev: seq<string>, sn: string): (r: seq<string>)
    ensures 1 <= |r| <= MaxEntries && r[0] == sn
    ensures forall k :: 0 <= k < |r| ==> r[k] == sn || r[k] in prev
  {
    var updated := [sn] + Without(prev, sn);
    updated[..if |updated| < MaxEntries then |updated| else MaxEntries]
  }

  /** The entries after the head are the previous list without `sn`, in
      their order, cut to 19. */
  lemma AddedTail(prev: seq<string>, sn: string)
    ensures var w := Without(prev, sn);
      Added(prev, sn)[1..] == w[..if |w| < MaxEntries - 1 then |w| else MaxEntries - 1]
  {
    var w := Without(prev, sn);
    var updated := [sn] + w;
    assert updated[1..] == w;
  }

  /** `sn` occurs exactly once in the new list. */
  lemma AddedOnce(prev: seq<string>, sn: string)
    ensures multiset(Added(prev, sn))[sn] == 1
  {
    var w := Without(prev, sn);
    var r := Added(prev, sn);
    AddedTail(prev, sn);
    var tail := r[1..];
    assert r == [sn] + tail;
    assert forall k :: 0 <= k < |tail| ==> tail[k] in w;
    assert sn !in tail;
    assert multiset(r) == multiset{sn} + multiset(tail);
  }

  lemma AddedNoDuplicates(prev: seq<string>, sn: string)
    requires NoDuplicates(prev)
    ensures NoDuplicates(Added(prev, sn))
  {
    var w := Without(prev, sn);
    FilterNoDuplicates(prev, (item: string) => item != sn);
    AddedTail(prev, sn);
    var r := Added(prev, sn);
    forall i, j | 0 <= i < j < |r|
      ensures r[i] != r[j]
    {
      assert r[j] == w[j - 1];
      if i > 0 {
        assert r[i] == w[i - 1];
      }
    }
  }

  /** Filtering out the head of a list that does not repeat it leaves the
      rest of the list. */
  lemma WithoutHead(prev: seq<string>)
    requires prev != [] && prev[0] !in prev[1..]
    ensures Without(prev, prev[0]) == prev[1..]
  {
    var p := (item: string) => item != prev[0];
    assert forall k :: 0 <= k < |prev[1..]| ==> p(prev[1..][k]);
    FilterKeepsAll(prev[1..], p);
  }

  /** Searching again for the most recent entry changes nothing. */
  lemma ReAddHead(prev: seq<string>)
    requires NoDuplicates(prev) && 1 <= |prev| <= MaxEntries
    ensures Added(prev, prev[0]) == prev
  {
    assert prev[0] !in prev[1..];
    WithoutHead(prev);
    assert [prev[0]] + prev[1..] == prev;
  }

  /** Adding the same serial number twice in a row is adding it once. */
  lemma AddIdempotent(prev: seq<string>, sn: string)
    ensures Added(Added(prev, sn), sn) == Added(prev, sn)
  {
    var r := Added(prev, sn);
    AddedOnce(prev, sn);
    assert r == [sn] + r[1..];
    assert sn !in r[1..] by {
      assert multiset(r) == multiset{sn} + multiset(r[1..]);
    }
    WithoutHead(r);
  }

  /** `JSON.stringify(updated)`, as a value. */
  function Encode(h: seq<string>): (r: Value)
    ensures r.Arr? && |r.items| == |h|
    ensures forall k :: 0 <= k < |h| ==> r.items[k] == Str(h[k])
  {
    Arr(seq(|h|, k requires 0 <= k < |h| => Str(h[k])))
  }

  /** A parsed value read as a list of serial numbers. */
  function Decode(v: Value): Option<seq<string>> {
    if v.Arr? && forall k :: 0 <= k < |v.items| ==> v.items[k].Str? then
      Some(seq(|v.items|, k requires 0 <= k < |v.items| && v.items[k].Str? => v.items[k].s))
    else None
  }

  lemma DecodeEncode(h: seq<string>)
    ensures Decode(Encode(h)) == Some(h)
  {
    var v := Encode(h);
    assert forall k :: 0 <= k < |v.items| ==> v.items[k].Str?;
    assert Decode(v).value == h;
  }

  /** A decodable value is the encoding of what it decodes to. */
  lemma EncodeDecode(v: Value)
    requires Decode(v).Some?
    ensures Encode(Decode(v).value) == v
  {
    var h := Decode(v).value;
    assert Encode(h).items == v.items;
  }

  /** What the mount effect makes of the stored item: the decoded list when
      the item is present and parses, nothing otherwise. */
  function Restored(item: Option<StoredText>): (r: Option<seq<string>>)
    ensures r.Some? ==> IsPresent(item) && Parse(item.value).Ok?
    ensures !IsPresent(item) ==> r.None?
  {
    if IsPresent(item) then
      match Parse(item.value)
      case Ok(v) => Decode(v)
      case Err(_) => None
    else None
  }

  lemma RestoreAfterSave(h: seq<string>)
    ensures Restored(Some(Serialized(Encode(h)))) == Some(h)
  {
    DecodeEncode(h);
  }

  /** A malformed stored value is not restored. */
  lemma MalformedIsIgnored(text: string)
    ensures Restored(Some(Malformed(text))) == None
  {
  }

  /** The hook's state: the list and the storage it is mirrored to. */
  class History {
    var entries: seq<string>
    const store: Store

    /** `useState<string[]>([])` */
    constructor (store: Store)
      ensures entries == [] && this.store == store
    {
      entries := [];
      this.store := store;
    }

    /** The storage item is the serialisation of the list, or the list is
        empty and there is no item. */
    predicate Synced()
      reads this, store
    {
      (StorageKey in store.items && store.items[StorageKey] == Serialized(Encode(entries))) ||
      (StorageKey !in store.items && entries == [])
    }

    /** The mount effect: a present, parseable item replaces the list; a
        parse failure is logged and the list is kept. */
    method Load()
      modifies this
      ensures var restored := Restored(store.GetItem(StorageKey));
        entries == if restored.Some? then restored.value else old(entries)
    {
      var stored := store.GetItem(StorageKey);
      if IsPresent(stored) {
        var parsed := Parse(stored.value);
        if parsed.Ok? {
          var decoded := Decode(parsed.value);
          if decoded.Some? {
            entries := decoded.value;
          }
        }
      }
    }

    /** `addToHistory(sn)` */
    method Add(sn: string)
      modifies this, store
      ensures entries == Added(old(entries), sn)
      ensures store.items == old(store.items)[StorageKey := Serialized(Encode(entries))]
      ensures Synced()
    {
      var filtered := Filter(entries, (item: string) => item != sn);
      var updated := [sn] + filtered;
      updated := updated[..if |updated| < MaxEntries then |updated| else MaxEntries];
      store.SetItem(StorageKey, Serialized(Encode(updated)));
      entries := updated;
    }

    /** `clearHistory()` */
    method Clear()
      modifies this, store
      ensures entries == []
      ensures store.items == old(store.items) - {StorageKey}
      ensures Synced()
    {
      entries := [];
      store.RemoveItem(StorageKey);
    }
  }

  /** A remount after an add or a clear restores the list as it was. */
  lemma RemountRestores(entries: seq<string>, items: map<string, StoredText>)
    requires (StorageKey in items && items[StorageKey] == Serialized(Encode(entries))) ||
             (StorageKey !in items && entries == [])
    ensures var item := if StorageKey in items then Some(items[StorageKey]) else None;
      (if Restored(item).Some? then Restored(item).value else []) == entries
  {
    if StorageKey in items {
      RestoreAfterSave(entries);
    }
  }
}
