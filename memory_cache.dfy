/** `MemoryCache`, the cache handed to the Drive client library: a map from
    url to content that is never evicted. The map is a class attribute in
    the source, so every instance reads and writes the same one; here it is
    a `Store` object that the instances share. */
module MemoryCache {
  import opened Wrappers

  /** `dict.get(url)` of a string-keyed map. */
  function Lookup(entries: map<string, string>, url: string): (r: Option<string>)
    ensures r.Some? <==> url in entries
    ensures r.Some? ==> r.value == entries[url]
  {
    if url in entries then Some(entries[url]) else None
  }

  /** The class-level `_CACHE` dict. */
  class Store {
    var entries: map<string, string>

    /** The dict is empty when the class is defined. */
    constructor()
      ensures entries == map[]
    {
      entries := map[];
    }
  }

  class Cache {
    const store: Store

    constructor(store: Store)
      ensures this.store == store
    {
      this.store := store;
    }

    /** `get(url)`: the content last set for the url, None if never set. */
    method Get(url: string) returns (r: Option<string>)
      ensures r == Lookup(store.entries, url)
    {
      r := if url in store.entries then Some(store.entries[url]) else None;
    }

    /** `set(url, content)`: the url's entry is (re)written; nothing else
        changes. */
    method Set(url: string, content: string)
      modifies store
      ensures store.entries == old(store.entries)[url := content]
    {
      store.entries := store.entries[url := content];
    }
  }

  /** A read after a write of the same url answers the written content. */
  lemma GetAfterSet(entries: map<string, string>, url: string, content: string)
    ensures Lookup(entries[url := content], url) == Some(content)
  {
  }

  /** A write leaves every other url as it was, and drops no url. */
  lemma SetKeepsOthers(entries: map<string, string>, url: string, content: string, other: string)
    requires other != url
    ensures Lookup(entries[url := content], other) == Lookup(entries, other)
    ensures entries.Keys <= entries[url := content].Keys
  {
  }

  /** A url never written reads as None in a fresh cache, and stays None
      after writes of other urls. */
  lemma {:induction false} UnsetIsNone(writes: seq<(string, string)>, url: string)
    requires forall k :: 0 <= k < |writes| ==> writes[k].0 != url
    ensures Lookup(Written(map[], writes), url) == None
  {
    if writes != [] {
      UnsetIsNone(writes[..|writes| - 1], url);
    }
  }

  /** The map after a sequence of `set` calls. */
  function Written(entries: map<string, string>, writes: seq<(string, string)>): map<string, string> {
    if writes == [] then entries
    else Written(entries, writes[..|writes| - 1])[writes[|writes| - 1].0 := writes[|writes| - 1].1]
  }

  /** The store is shared: what one instance sets, another instance gets. */
  method SharedBetweenInstances(a: Cache, b: Cache, url: string, content: string) returns (r: Option<string>)
    requires a.store == b.store
    modifies a.store
    ensures r == Some(content)
  {
    a.Set(url, content);
    r := b.Get(url);
  }
}
