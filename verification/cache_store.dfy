/** The browser's CacheStorage as the service worker sees it: named caches
    in creation order, each a map from request URL to a stored response.
    `caches.match` searches the caches in creation order and `caches.open`
    creates a missing cache at the end. */
module CacheStore {
  import opened Common

  type Url = string

  /** A response snapshot: status code and body text. */
  datatype Response = Response(status: int, body: string) {
    /** `response.ok`: a status in the range 200-299. */
    predicate Ok() {
      200 <= status <= 299
    }

    /** A response `cache.put` and `cache.addAll` accept: an ok one that is
        not 206 Partial Content, which both reject with a TypeError. */
    predicate Storable() {
      Ok() && status != 206
    }
  }

  datatype NamedCache = NamedCache(name: string, entries: map<Url, Response>)

  type Store = seq<NamedCache>

  function Names(st: Store): (ns: seq<string>)
    ensures |ns| == |st|
  {
    if |st| == 0 then [] else [st[0].name] + Names(st[1..])
  }

  /** Cache names are distinct, as CacheStorage guarantees. */
  predicate WellFormed(st: Store) {
    forall i, j :: 0 <= i < j < |st| ==> st[i].name != st[j].name
  }

  /** The entries of the cache called `name`, if it exists. */
  function Lookup(st: Store, name: string): (r: Option<map<Url, Response>>)
    ensures r.None? <==> name !in Names(st)
  {
    if |st| == 0 then None
    else if st[0].name == name then Some(st[0].entries)
    else Lookup(st[1..], name)
  }

  /** `caches.open(name)`: a missing cache is created, empty, at the end. */
  function Open(st: Store, name: string): (r: Store)
    ensures name in Names(st) ==> r == st
    ensures name !in Names(st) ==> r == st + [NamedCache(name, map[])]
  {
    if name in Names(st) then st else st + [NamedCache(name, map[])]
  }

  /** Writes `url -> resp` into the first cache called `name`. */
  function PutIn(st: Store, name: string, url: Url, resp: Response): (r: Store)
    ensures Names(r) == Names(st)
  {
    if |st| == 0 then []
    else if st[0].name == name then [st[0].(entries := st[0].entries[url := resp])] + st[1..]
    else [st[0]] + PutIn(st[1..], name, url, resp)
  }

  /** `(await caches.open(name)).put(url, resp)`: a full overwrite of one key. */
  function Put(st: Store, name: string, url: Url, resp: Response): Store {
    PutIn(Open(st, name), name, url, resp)
  }

  /** `cache.match(url)` on the cache called `name`. */
  function MatchIn(st: Store, name: string, url: Url): Option<Response> {
    match Lookup(st, name)
    case None => None
    case Some(m) => if url in m then Some(m[url]) else None
  }

  /** `caches.match(url)`: the entry of the first cache, in creation order,
      that holds `url`. */
  function MatchAll(st: Store, url: Url): Option<Response> {
    if |st| == 0 then None
    else if url in st[0].entries then Some(st[0].entries[url])
    else MatchAll(st[1..], url)
  }

  /** `caches.delete(name)` */
  function Delete(st: Store, name: string): (r: Store)
    ensures name !in Names(r)
  {
    if |st| == 0 then []
    else if st[0].name == name then Delete(st[1..], name)
    else [st[0]] + Delete(st[1..], name)
  }

  // ---------------------------------------------------------------------
  // Properties of the store operations

  lemma {:induction false} LookupPutIn(st: Store, name: string, url: Url, resp: Response, other: string)
    ensures Lookup(PutIn(st, name, url, resp), other) ==
            if other == name then
              match Lookup(st, name)
              case None => None
              case Some(m) => Some(m[url := resp])
            else Lookup(st, other)
  {
    if |st| > 0 && st[0].name != name {
      LookupPutIn(st[1..], name, url, resp, other);
      assert PutIn(st, name, url, resp)[1..] == PutIn(st[1..], name, url, resp);
    } else if |st| > 0 {
      assert PutIn(st, name, url, resp)[1..] == st[1..];
    }
  }

  lemma {:induction false} LookupAppend(st: Store, c: NamedCache, name: string)
    ensures Lookup(st + [c], name) ==
            if name in Names(st) then Lookup(st, name)
            else if c.name == name then Some(c.entries) else None
  {
    if |st| > 0 {
      assert (st + [c])[1..] == st[1..] + [c];
      LookupAppend(st[1..], c, name);
    } else {
      assert Lookup([c][1..], name) == None;
    }
  }

  /** After a put, the written cache holds the response under `url` and
      every other key of it, and every other cache, is unchanged. */
  lemma LookupPut(st: Store, name: string, url: Url, resp: Response, other: string)
    ensures Lookup(Put(st, name, url, resp), other) ==
            if other == name then
              Some(Lookup(st, name).GetOr(map[])[url := resp])
            else Lookup(st, other)
  {
    LookupPutIn(Open(st, name), name, url, resp, other);
    if name !in Names(st) {
      LookupAppend(st, NamedCache(name, map[]), other);
      LookupAppend(st, NamedCache(name, map[]), name);
    }
  }

  /** Opening a cache creates it empty when it is missing and changes no
      other cache. */
  lemma LookupOpen(st: Store, name: string, other: string)
    ensures name in Names(Open(st, name))
    ensures Lookup(Open(st, name), other) ==
            if other == name then Some(Lookup(st, name).GetOr(map[])) else Lookup(st, other)
  {
    if name !in Names(st) {
      NamesAppend(st, NamedCache(name, map[]));
      LookupAppend(st, NamedCache(name, map[]), other);
    }
  }

  /** Opening a cache adds no entry `caches.match` could find. */
  lemma MatchAllOpen(st: Store, name: string, url: Url)
    ensures MatchAll(Open(st, name), url) == MatchAll(st, url)
  {
    if name !in Names(st) {
      MatchAllAppend(st, NamedCache(name, map[]), url);
    }
  }

  /** Reading back a put returns what was written. */
  lemma MatchInPut(st: Store, name: string, url: Url, resp: Response)
    ensures MatchIn(Put(st, name, url, resp), name, url) == Some(resp)
  {
    LookupPut(st, name, url, resp, name);
  }

  lemma {:induction false} MatchAllAppend(st: Store, c: NamedCache, url: Url)
    ensures MatchAll(st + [c], url) ==
            if MatchAll(st, url).Some? then MatchAll(st, url)
            else if url in c.entries then Some(c.entries[url]) else None
  {
    if |st| > 0 {
      assert (st + [c])[1..] == st[1..] + [c];
      MatchAllAppend(st[1..], c, url);
    } else {
      assert MatchAll([c][1..], url) == None;
    }
  }

  /** After a put into any cache, `caches.match` finds a response for the
      key: the written one unless an older cache already held the key. */
  lemma {:induction false} MatchAllPutIn(st: Store, name: string, url: Url, resp: Response)
    requires name in Names(st)
    ensures MatchAll(st, url).None? ==> MatchAll(PutIn(st, name, url, resp), url) == Some(resp)
    ensures MatchAll(PutIn(st, name, url, resp), url).Some?
  {
    if st[0].name != name {
      MatchAllPutIn(st[1..], name, url, resp);
      assert PutIn(st, name, url, resp)[1..] == PutIn(st[1..], name, url, resp);
    }
  }

  lemma MatchAllPut(st: Store, name: string, url: Url, resp: Response)
    ensures MatchAll(st, url).None? ==> MatchAll(Put(st, name, url, resp), url) == Some(resp)
    ensures MatchAll(Put(st, name, url, resp), url).Some?
  {
    if name !in Names(st) {
      MatchAllAppend(st, NamedCache(name, map[]), url);
      assert name in Names(st + [NamedCache(name, map[])]) by {
        NamesAppend(st, NamedCache(name, map[]));
      }
    }
    MatchAllPutIn(Open(st, name), name, url, resp);
  }

  /** `caches.match` finds a response whenever some cache holds the key. */
  lemma {:induction false} MatchAllFindsAny(st: Store, name: string, url: Url)
    requires MatchIn(st, name, url).Some?
    ensures MatchAll(st, url).Some?
  {
    if url !in st[0].entries && st[0].name != name {
      MatchAllFindsAny(st[1..], name, url);
    }
  }

  lemma {:induction false} NamesAppend(st: Store, c: NamedCache)
    ensures Names(st + [c]) == Names(st) + [c.name]
  {
    if |st| > 0 {
      assert (st + [c])[1..] == st[1..] + [c];
      NamesAppend(st[1..], c);
    }
  }

  /** Deleting one cache leaves every other cache's entries as they were. */
  lemma {:induction false} LookupDelete(st: Store, name: string, other: string)
    requires other != name
    ensures Lookup(Delete(st, name), other) == Lookup(st, other)
  {
    if |st| > 0 {
      LookupDelete(st[1..], name, other);
    }
  }
}
