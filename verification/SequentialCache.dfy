/** The cache middleware around the tool handlers, for one user at a time. */
module SequentialCache {
  import opened Wrappers
  import opened Keys
  import opened Invalidation

  /** A tool's answer; `Fault` is a protocol-level error. */
  datatype Outcome = Answer(text: string, isError: bool) | Fault

  const READ_ONLY_TOOLS: set<string> :=
    {"odoo_search_read", "odoo_read", "odoo_fields_get", "odoo_list_models", "odoo_get_server_info"}

  const WRITE_TOOLS: set<string> :=
    {"odoo_create", "odoo_write", "odoo_unlink", "odoo_message_post", "odoo_call"}

  /** The server below the cache, which knows nothing of the two sets, and the encoding of stored results. */
  datatype Backend<!Db> = Backend(
    handle: (Db, string, string) -> (Db, Outcome),
    encode: Outcome -> string,
    decode: string -> Option<Outcome>)

  predicate Succeeds(o: Outcome) {
    o.Answer? && !o.isError
  }

  /** Encoding has an inverse and is never empty; what does not succeed changes nothing; five tools only read; and other
      names than the ten registered ones do not succeed. */
  ghost predicate Lawful<Db(!new)>(b: Backend<Db>) {
    && (forall o :: b.encode(o) != "" && b.decode(b.encode(o)) == Some(o))
    && (forall db, tool, digest :: !Succeeds(b.handle(db, tool, digest).1) ==> b.handle(db, tool, digest).0 == db)
    && (forall db, tool, digest |
          || tool == "odoo_search_read" || tool == "odoo_read" || tool == "odoo_fields_get"
          || tool == "odoo_list_models" || tool == "odoo_get_server_info" ::
          b.handle(db, tool, digest).0 == db)
    && (forall db, tool, digest |
          && tool != "odoo_search_read" && tool != "odoo_read" && tool != "odoo_fields_get"
          && tool != "odoo_list_models" && tool != "odoo_get_server_info"
          && tool != "odoo_create" && tool != "odoo_write" && tool != "odoo_unlink"
          && tool != "odoo_message_post" && tool != "odoo_call" ::
          !Succeeds(b.handle(db, tool, digest).1))
  }

  /** The tools that only read. */
  predicate Reads(tool: string) {
    || tool == "odoo_search_read" || tool == "odoo_read" || tool == "odoo_fields_get"
    || tool == "odoo_list_models" || tool == "odoo_get_server_info"
  }

  predicate Writes(tool: string) {
    || tool == "odoo_create" || tool == "odoo_write" || tool == "odoo_unlink"
    || tool == "odoo_message_post" || tool == "odoo_call"
  }

  lemma SetsAreThose(tool: string)
    ensures tool in READ_ONLY_TOOLS <==> Reads(tool)
    ensures tool in WRITE_TOOLS <==> Writes(tool)
  {
  }

  /** The two sets hold the ten registered tools, by name. */
  lemma TenTools(tool: string)
    ensures tool in READ_ONLY_TOOLS <==>
      || tool == "odoo_search_read" || tool == "odoo_read" || tool == "odoo_fields_get"
      || tool == "odoo_list_models" || tool == "odoo_get_server_info"
    ensures tool in WRITE_TOOLS <==>
      || tool == "odoo_create" || tool == "odoo_write" || tool == "odoo_unlink"
      || tool == "odoo_message_post" || tool == "odoo_call"
  {
  }

  /** A tool call: the tool and the digest of its arguments. */
  datatype Request = Request(tool: string, digest: string)

  function UncachedRun<Db>(b: Backend<Db>, db: Db, calls: seq<Request>): (Db, seq<Outcome>) {
    if calls == [] then (db, [])
    else
      var last := calls[|calls| - 1];
      var (before, answers) := UncachedRun(b, db, calls[..|calls| - 1]);
      var (after, answer) := b.handle(before, last.tool, last.digest);
      (after, answers + [answer])
  }

  lemma RunOneMore<Db>(b: Backend<Db>, db: Db, calls: seq<Request>, c: Request)
    ensures var (before, answers) := UncachedRun(b, db, calls);
      var (after, answer) := b.handle(before, c.tool, c.digest);
      UncachedRun(b, db, calls + [c]) == (after, answers + [answer])
  {
    assert (calls + [c])[..|calls + [c]| - 1] == calls;
  }

  /** Every stored entry of the user is the successful answer the handler would give now. */
  ghost predicate Consistent<Db>(b: Backend<Db>, uid: int, db: Db, store: map<string, string>) {
    forall tool, digest | IsDigest(digest) && CacheKey(uid, tool, digest) in store ::
      && tool in READ_ONLY_TOOLS
      && Succeeds(b.handle(db, tool, digest).1)
      && store[CacheKey(uid, tool, digest)] == b.encode(b.handle(db, tool, digest).1)
  }

  predicate Mine(uid: int, key: string) {
    CachePrefix(uid) <= key
  }

  function Drop(uid: int, store: map<string, string>): map<string, string> {
    map k | k in store && !Mine(uid, k) :: store[k]
  }

  lemma OnlyOthersKeysChanged<Db>(
      b: Backend<Db>, uid: int, db: Db, store: map<string, string>, store': map<string, string>)
    requires Consistent(b, uid, db, store)
    requires forall k | k in store' && Mine(uid, k) :: k in store && store'[k] == store[k]
    ensures Consistent(b, uid, db, store')
  {
    forall tool, digest | IsDigest(digest) && CacheKey(uid, tool, digest) in store'
      ensures CacheKey(uid, tool, digest) in store
           && store'[CacheKey(uid, tool, digest)] == store[CacheKey(uid, tool, digest)]
    {
      PrefixIffOwner(uid, tool, digest, uid);
    }
  }

  /** The pages of a scan while nobody else changes the store; it may fail on the way. */
  ghost predicate ScanOf(uid: int, store: map<string, string>, pages: seq<ScanReply>) {
    && '[' !in CachePrefix(uid)
    && Iteration(pages)
    && (AllPages(pages) ==> forall i | 0 <= i < |pages| :: pages[i].kept == store.Keys)
    && ScanPromise(CachePrefix(uid) + "*", pages)
  }

  /** What goes wrong around one call: the resolver, Get, Set or DEL. A Set or a DEL whose answer is lost counts by its
      effect. */
  datatype Faults = Faults(resolves: bool, gets: bool, stores: bool, del: Deletion)

  /** The user's entries are dropped after a successful write. */
  predicate Invalidates(f: Faults, pages: seq<ScanReply>) {
    f.resolves && AllPages(pages) && f.del != Failed(false)
  }

  lemma EmptyIsConsistent<Db>(b: Backend<Db>, uid: int, db: Db, store: map<string, string>)
    requires forall k | k in store :: !Mine(uid, k)
    ensures Consistent(b, uid, db, store)
  {
    forall tool, digest | IsDigest(digest) && CacheKey(uid, tool, digest) in store
      ensures false
    {
      PrefixIffOwner(uid, tool, digest, uid);
    }
  }

  class CachedServer<Db(!new)> {
    const backend: Backend<Db>
    const uid: int
    var db: Db
    var store: map<string, string>
    ghost const initial: Db
    ghost var calls: seq<Request>
    ghost var answers: seq<Outcome>
    ghost var clean: bool     // no invalidation was missed since the user's entries were last dropped
    ghost var faithful: bool  // no read was answered while one had been missed

    /** The database is as without a cache, and so are all answers, unless an invalidation was missed. */
    ghost predicate Valid()
      reads this
    {
      && Lawful(backend)
      && (clean ==> Consistent(backend, uid, db, store))
      && db == UncachedRun(backend, initial, calls).0
      && (faithful ==> answers == UncachedRun(backend, initial, calls).1)
    }

    constructor (backend: Backend<Db>, uid: int, db: Db)
      requires Lawful(backend)
      ensures Valid() && this.backend == backend && this.uid == uid && this.db == db && store == map[]
      ensures initial == db && calls == [] && clean && faithful
    {
      this.backend, this.uid, this.db := backend, uid, db;
      store, initial, calls, answers, clean, faithful := map[], db, [], [], true, true;
    }

    method ReadTool(tool: string, digest: string, f: Faults) returns (o: Outcome)
      requires Valid() && IsDigest(digest) && tool in READ_ONLY_TOOLS
      modifies this`store
      ensures Valid()
      ensures clean ==> o == backend.handle(db, tool, digest).1
      ensures clean ==>
        store ==
          if Succeeds(o) && f.resolves && f.stores then old(store)[CacheKey(uid, tool, digest) := backend.encode(o)]
          else old(store)
    {
      if !f.resolves {
        return backend.handle(db, tool, digest).1;
      }
      var key := CacheKey(uid, tool, digest);
      var cached := if f.gets && key in store then store[key] else "";
      if cached != "" {
        var decoded := backend.decode(cached);
        if decoded.Some? {
          return decoded.value;
        }
      }
      o := backend.handle(db, tool, digest).1;
      if o.Answer? && !o.isError && f.stores {
        store := store[key := backend.encode(o)];
        forall t, d | IsDigest(d) && CacheKey(uid, t, d) == key
          ensures t == tool && d == digest
        {
          CacheKeyInjective(uid, t, d, uid, tool, digest);
        }
      }
    }

    method WriteTool(tool: string, digest: string, pages: seq<ScanReply>, f: Faults) returns (o: Outcome)
      requires Valid() && tool in WRITE_TOOLS && ScanOf(uid, store, pages)
      modifies this`db, this`store
      ensures (db, o) == backend.handle(old(db), tool, digest)
      ensures store == if Succeeds(o) && Invalidates(f, pages) then Drop(uid, old(store)) else old(store)
      ensures (if Succeeds(o) then Invalidates(f, pages) else clean) ==> Consistent(backend, uid, db, store)
    {
      var (next, answer) := backend.handle(db, tool, digest);
      db, o := next, answer;
      if o.Answer? && !o.isError && f.resolves {
        CachePrefixLiteral(uid);
        var ok, after := Invalidate(CachePrefix(uid), pages, store, f.del);
        if Invalidates(f, pages) {
          assert forall k | k in store :: Resident(pages, k);
          assert after == Drop(uid, store);
          EmptyIsConsistent(backend, uid, db, after);
        }
        store := after;
      }
    }

    /** Keys may expire or be evicted, and other users' keys may change, at any time. */
    method Disturb(store': map<string, string>)
      requires Valid()
      requires forall k | k in store' && Mine(uid, k) :: k in store && store'[k] == store[k]
      modifies this`store
      ensures Valid() && store == store' && calls == old(calls) && answers == old(answers)
    {
      if clean {
        OnlyOthersKeysChanged(backend, uid, db, store, store');
      }
      store := store';
    }

    /** Read tools and write tools take their ways; all other names pass through. `pages` is what SCAN answers if the
        call invalidates. */
    method Dispatch(tool: string, digest: string, pages: seq<ScanReply>, f: Faults) returns (o: Outcome)
      requires Valid() && IsDigest(digest) && ScanOf(uid, store, pages)
      modifies this`db, this`store, this`clean
      ensures clean ==> Consistent(backend, uid, db, store)
      ensures db == backend.handle(old(db), tool, digest).0
      ensures old(clean) || !Reads(tool) ==> o == backend.handle(old(db), tool, digest).1
      ensures clean == if Writes(tool) && Succeeds(o) then Invalidates(f, pages) else old(clean)
      ensures old(clean) ==>
        store ==
          if Reads(tool) && Succeeds(o) && f.resolves && f.stores then
            old(store)[CacheKey(uid, tool, digest) := backend.encode(o)]
          else if Writes(tool) && Succeeds(o) && Invalidates(f, pages) then Drop(uid, old(store))
          else old(store)
    {
      SetsAreThose(tool);
      if tool in READ_ONLY_TOOLS {
        o := ReadTool(tool, digest, f);
      } else if tool in WRITE_TOOLS {
        o := WriteTool(tool, digest, pages, f);
        clean := if Succeeds(o) then Invalidates(f, pages) else clean;
      } else {
        var (next, answer) := backend.handle(db, tool, digest);
        db, o := next, answer;
      }
    }

    method Call(tool: string, digest: string, pages: seq<ScanReply>, f: Faults) returns (o: Outcome)
      requires Valid() && IsDigest(digest) && ScanOf(uid, store, pages)
      modifies this
      ensures Valid() && calls == old(calls) + [Request(tool, digest)] && answers == old(answers) + [o]
      ensures db == backend.handle(old(db), tool, digest).0
      ensures old(clean) || !Reads(tool) ==> o == backend.handle(old(db), tool, digest).1
      ensures clean == if Writes(tool) && Succeeds(o) then Invalidates(f, pages) else old(clean)
      ensures faithful == (old(faithful) && (old(clean) || !Reads(tool)))
    {
      RunOneMore(backend, initial, calls, Request(tool, digest));
      faithful := faithful && (clean || !Reads(tool));
      o := Dispatch(tool, digest, pages, f);
      calls, answers := calls + [Request(tool, digest)], answers + [o];
    }
  }
}
