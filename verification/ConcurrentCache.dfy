/** The shared cache under concurrent requests of many users: every Valkey or Odoo round trip is one step. */
module ConcurrentCache {
  import opened Wrappers
  import opened Keys

  datatype Call = Call(uid: int, tool: string, digest: string)

  function KeyOf(c: Call): string {
    CacheKey(c.uid, c.tool, c.digest)
  }

  /** Seconds an entry lives. */
  function ToolTTL(tool: string): (ttl: real)
    ensures ttl >= 30.0
  {
    if tool == "odoo_search_read" || tool == "odoo_read" then 30.0
    else if tool == "odoo_fields_get" then 300.0
    else if tool == "odoo_list_models" then 3600.0
    else if tool == "odoo_get_server_info" then 300.0
    else 30.0
  }

  /** When something happened: its step in the run, and the clock then. */
  datatype Moment = Moment(step: nat, clock: real)

  /** A stored answer: whose, computed when, stored when. `last` is the step of the handler's second request, if it sends
      one that succeeds; the answer is as old as the first. */
  datatype Entry<+Ans> = Entry(
    call: Call, answer: Ans, computed: Moment, last: Option<nat>, stored: Moment, expireAt: real)

  /** A request between two of its steps. */
  datatype Flight<+Ans> =
    | Reading(call: Call)
    | Missed(call: Call)
    | Half(call: Call, computed: Moment)
    | Answered(call: Call, answer: Ans, computed: Moment, last: Option<nat>)
    | Writing(uid: int)
    | Applied(uid: int, effect: nat)
    | Scanning(uid: int, effect: nat, began: nat, due: set<string>, found: set<string>)
    | Scanned(uid: int, effect: nat, began: nat, found: set<string>)

  /** A successful write whose invalidation has finished. */
  datatype Write = Write(uid: int, effect: nat, began: nat, done: nat)

  datatype Hit<+Ans> = Hit(call: Call, entry: Entry<Ans>, at: Moment)

  /** `dbs` lists the database before every step so far, and now. */
  datatype State<Db, +Ans> = State(
    dbs: seq<Db>,
    clock: real,
    store: map<string, Entry<Ans>>,
    flights: map<nat, Flight<Ans>>,
    writes: seq<Write>,
    hits: seq<Hit<Ans>>)
  {
    function Step(): nat
      requires dbs != []
    {
      |dbs| - 1
    }

    function Now(): Moment
      requires dbs != []
    {
      Moment(|dbs| - 1, clock)
    }
  }

  datatype Action<+Db> =
    | Tick(elapsed: real)
    | Outside(db: Db)
    | Evict(key: string)
    | BeginRead(id: nat, call: Call)
    | Get(id: nat)
    | Skip(id: nat)  // Get fails, and the handler runs
    | Handle(id: nat, ok: bool)  // with one request that counts
    | First(id: nat)             // of two requests
    | Second(id: nat)
    | Set(id: nat)
    | BeginWrite(id: nat, uid: int)
    | Apply(id: nat, db: Db, ok: bool)
    | BeginScan(id: nat)
    | Page(id: nat, keys: set<string>)
    | EndScan(id: nat)
    | Delete(id: nat)

  predicate Live<Ans>(e: Entry<Ans>, clock: real) {
    clock < e.expireAt
  }

  /** A key that was absent for a moment is no longer owed to a running scan. */
  function Excuse<Ans>(f: Flight<Ans>, gone: set<string>): Flight<Ans> {
    if f.Scanning? then f.(due := f.due - gone) else f
  }

  function Forget<Ans>(flights: map<nat, Flight<Ans>>, gone: set<string>): map<nat, Flight<Ans>> {
    map id | id in flights :: Excuse(flights[id], gone)
  }

  function OwnLiveKeys<Ans>(store: map<string, Entry<Ans>>, uid: int, clock: real): set<string> {
    set k | k in store && CachePrefix(uid) <= k && Live(store[k], clock)
  }

  /** One step of the system; an action that is not possible in `s` leaves it as it is. */
  function Next<Db, Ans>(read: (Db, Option<Db>, Call) -> Ans, s: State<Db, Ans>, a: Action<Db>): State<Db, Ans>
    requires s.dbs != []
  {
    var db := s.dbs[|s.dbs| - 1];
    var t := s.(dbs := s.dbs + [db]);
    match a
    case Tick(elapsed) => if elapsed > 0.0 then t.(clock := s.clock + elapsed) else s
    case Outside(db') => s.(dbs := s.dbs + [db'])
    case Evict(key) => t.(store := s.store - {key}, flights := Forget(s.flights, {key}))
    case BeginRead(id, call) =>
      if id !in s.flights && IsDigest(call.digest) then t.(flights := s.flights[id := Reading(call)]) else s
    case BeginWrite(id, uid) =>
      if id !in s.flights then t.(flights := s.flights[id := Writing(uid)]) else s
    case _ =>
      if a.id !in s.flights then s else Advance(read, s, a, s.flights[a.id])
  }

  /** The next step of a request already in flight. */
  function Advance<Db, Ans>(
      read: (Db, Option<Db>, Call) -> Ans, s: State<Db, Ans>, a: Action<Db>, f: Flight<Ans>): State<Db, Ans>
    requires s.dbs != []
    requires a.Get? || a.Skip? || a.Handle? || a.First? || a.Second? || a.Set?
      || a.Apply? || a.BeginScan? || a.Page? || a.EndScan? || a.Delete?
  {
    var db := s.dbs[|s.dbs| - 1];
    var t := s.(dbs := s.dbs + [db]);
    var landed := s.flights - {a.id};
    match (a, f)
    case (Get(id), Reading(call)) =>
      var key := KeyOf(call);
      if key in s.store && Live(s.store[key], s.clock) then
        t.(flights := landed, hits := s.hits + [Hit(call, s.store[key], s.Now())])
      else t.(flights := s.flights[id := Missed(call)])
    case (Skip(id), Reading(call)) => t.(flights := s.flights[id := Missed(call)])
    case (Handle(id, ok), Missed(call)) =>
      if ok then t.(flights := s.flights[id := Answered(call, read(db, None, call), s.Now(), None)])
      else t.(flights := landed)
    case (First(id), Missed(call)) => t.(flights := s.flights[id := Half(call, s.Now())])
    case (Second(id), Half(call, computed)) =>
      if computed.step < |s.dbs| then
        var answer := read(s.dbs[computed.step], Some(db), call);
        t.(flights := s.flights[id := Answered(call, answer, computed, Some(s.Step()))])
      else s
    case (Set(id), Answered(call, answer, computed, last)) =>
      var key := KeyOf(call);
      var absent := !(key in s.store && Live(s.store[key], s.clock));
      t.(store := s.store[key := Entry(call, answer, computed, last, s.Now(), s.clock + ToolTTL(call.tool))],
         flights := if absent then Forget(landed, {key}) else landed)
    case (Apply(id, db', ok), Writing(uid)) =>
      if ok then s.(dbs := s.dbs + [db'], flights := s.flights[id := Applied(uid, s.Step())])
      else t.(flights := landed)
    case (BeginScan(id), Applied(uid, effect)) =>
      t.(flights := s.flights[id := Scanning(uid, effect, s.Step(), OwnLiveKeys(s.store, uid, s.clock), {})])
    case (Page(id, keys), Scanning(uid, effect, began, due, found)) =>
      t.(flights := s.flights[id := Scanning(uid, effect, began, due,
        found + (keys * OwnLiveKeys(s.store, uid, s.clock)))])
    case (EndScan(id), Scanning(uid, effect, began, due, found)) =>
      if due * OwnLiveKeys(s.store, uid, s.clock) <= found
      then t.(flights := s.flights[id := Scanned(uid, effect, began, found)])
      else s
    case (Delete(id), Scanned(uid, effect, began, found)) =>
      t.(store := s.store - found,
         flights := Forget(landed, found),
         writes := s.writes + [Write(uid, effect, began, s.Step())])
    case _ => s
  }

  function Initial<Db, Ans>(db: Db): State<Db, Ans> {
    State([db], 0.0, map[], map[], [], [])
  }

  /** The state after any list of actions: every run of the system. */
  function After<Db, Ans>(read: (Db, Option<Db>, Call) -> Ans, db: Db, actions: seq<Action<Db>>): (s: State<Db, Ans>)
    ensures s.dbs != []
  {
    if actions == [] then Initial(db)
    else Next(read, After(read, db, actions[..|actions| - 1]), actions[|actions| - 1])
  }

  // What every run keeps.

  /** The user's live entries stored no later than step `began` are all in `keys`. */
  ghost predicate Covered<Ans>(store: map<string, Entry<Ans>>, clock: real, uid: int, began: nat, keys: set<string>) {
    forall k | k in store && store[k].call.uid == uid && Live(store[k], clock) && store[k].stored.step <= began ::
      k in keys
  }

  ghost predicate WellKeyed<Ans>(store: map<string, Entry<Ans>>) {
    forall k | k in store :: k == KeyOf(store[k].call)
  }

  /** The prefix finds exactly the user's own live entries. */
  lemma PrefixFindsOwn<Ans>(store: map<string, Entry<Ans>>, uid: int, clock: real)
    requires WellKeyed(store)
    ensures forall k | k in store && Live(store[k], clock) ::
      k in OwnLiveKeys(store, uid, clock) <==> store[k].call.uid == uid
  {
    forall k | k in store
      ensures CachePrefix(uid) <= k <==> store[k].call.uid == uid
    {
      var c := store[k].call;
      PrefixIffOwner(c.uid, c.tool, c.digest, uid);
    }
  }

  ghost predicate AllOf(uid: int, keys: set<string>) {
    forall k | k in keys :: CachePrefix(uid) <= k
  }

  /** Odoo answered the call from the databases of step `at` and, if there was a second request, of step `last`. */
  ghost predicate Computed<Db, Ans>(
      read: (Db, Option<Db>, Call) -> Ans, dbs: seq<Db>, call: Call, answer: Ans, at: Moment, last: Option<nat>) {
    && IsDigest(call.digest) && at.step < |dbs| && (last.Some? ==> at.step <= last.value < |dbs|)
    && answer == read(dbs[at.step], if last.Some? then Some(dbs[last.value]) else None, call)
  }

  ghost predicate EntryOk<Db, Ans>(read: (Db, Option<Db>, Call) -> Ans, dbs: seq<Db>, clock: real, e: Entry<Ans>) {
    && Computed(read, dbs, e.call, e.answer, e.computed, e.last) && (e.last.Some? ==> e.last.value < e.stored.step)
    && e.computed.step < e.stored.step < |dbs| - 1
    && e.computed.clock <= e.stored.clock <= clock
    && e.expireAt == e.stored.clock + ToolTTL(e.call.tool)
  }

  ghost predicate FlightOk<Db, Ans>(read: (Db, Option<Db>, Call) -> Ans, s: State<Db, Ans>, f: Flight<Ans>) {
    match f
    case Reading(call) => IsDigest(call.digest)
    case Missed(call) => IsDigest(call.digest)
    case Half(call, computed) => IsDigest(call.digest) && computed.step < |s.dbs| - 1 && computed.clock <= s.clock
    case Answered(call, answer, computed, last) =>
      && Computed(read, s.dbs, call, answer, computed, last)
      && computed.step < |s.dbs| - 1 && (last.Some? ==> last.value < |s.dbs| - 1) && computed.clock <= s.clock
    case Writing(_) => true
    case Applied(_, effect) => effect < |s.dbs| - 1
    case Scanning(uid, effect, began, due, found) =>
      effect < began < |s.dbs| - 1 && Covered(s.store, s.clock, uid, began, due) && AllOf(uid, found)
    case Scanned(uid, effect, began, found) =>
      effect < began < |s.dbs| - 1 && Covered(s.store, s.clock, uid, began, found) && AllOf(uid, found)
  }

  ghost predicate WriteOk<Db, Ans>(s: State<Db, Ans>, w: Write) {
    w.effect < w.began < w.done < |s.dbs| - 1 && Covered(s.store, s.clock, w.uid, w.began, {})
  }

  /** A stale answer after a finished write comes only from a read that overlapped the write. */
  ghost predicate Overlapped<Ans>(h: Hit<Ans>, w: Write) {
    h.call.uid == w.uid && w.done < h.at.step && h.entry.computed.step < w.effect ==>
      w.began < h.entry.stored.step < h.at.step
  }

  ghost predicate HitOk<Db, Ans>(read: (Db, Option<Db>, Call) -> Ans, s: State<Db, Ans>, h: Hit<Ans>) {
    && EntryOk(read, s.dbs, s.clock, h.entry)
    && h.entry.call == h.call
    && h.entry.stored.step < h.at.step < |s.dbs| - 1
    && h.at.clock < h.entry.expireAt
    && forall i | 0 <= i < |s.writes| :: Overlapped(h, s.writes[i])
  }

  ghost predicate Inv<Db, Ans>(read: (Db, Option<Db>, Call) -> Ans, s: State<Db, Ans>) {
    && s.dbs != []
    && WellKeyed(s.store)
    && (forall k | k in s.store :: EntryOk(read, s.dbs, s.clock, s.store[k]))
    && (forall id | id in s.flights :: FlightOk(read, s, s.flights[id]))
    && (forall i | 0 <= i < |s.writes| :: WriteOk(s, s.writes[i]))
    && (forall i | 0 <= i < |s.hits| :: HitOk(read, s, s.hits[i]))
  }

  /** A step: one more database, no earlier clock, and every entry not just stored was there before. */
  ghost predicate Frame<Db, Ans>(s: State<Db, Ans>, t: State<Db, Ans>, gone: set<string>) {
    && s.dbs != []
    && |t.dbs| == |s.dbs| + 1
    && s.dbs <= t.dbs
    && s.clock <= t.clock
    && forall k | k in t.store && t.store[k].stored.step < |s.dbs| - 1 ::
         k in s.store && t.store[k] == s.store[k] && k !in gone
  }

  lemma EntryFrame<Db, Ans>(
      read: (Db, Option<Db>, Call) -> Ans, s: State<Db, Ans>, t: State<Db, Ans>, gone: set<string>, e: Entry<Ans>)
    requires Frame(s, t, gone) && EntryOk(read, s.dbs, s.clock, e)
    ensures EntryOk(read, t.dbs, t.clock, e)
  {
  }

  lemma FlightFrame<Db, Ans>(
      read: (Db, Option<Db>, Call) -> Ans, s: State<Db, Ans>, t: State<Db, Ans>, gone: set<string>, f: Flight<Ans>)
    requires Frame(s, t, gone) && FlightOk(read, s, f)
    ensures FlightOk(read, t, Excuse(f, gone))
  {
  }

  lemma HitFrame<Db, Ans>(
      read: (Db, Option<Db>, Call) -> Ans, s: State<Db, Ans>, t: State<Db, Ans>, gone: set<string>, h: Hit<Ans>)
    requires Frame(s, t, gone) && HitOk(read, s, h)
    requires t.writes == s.writes || exists w :: t.writes == s.writes + [w] && w.done == |s.dbs| - 1
    ensures HitOk(read, t, h)
  {
    EntryFrame(read, s, t, gone, h.entry);
  }

  /** What a step need not touch keeps its invariant. */
  lemma FrameKeeps<Db, Ans>(read: (Db, Option<Db>, Call) -> Ans, s: State<Db, Ans>, t: State<Db, Ans>, gone: set<string>)
    requires Inv(read, s) && Frame(s, t, gone)
    requires t.writes == s.writes && t.hits == s.hits
    requires WellKeyed(t.store)
    requires forall k | k in t.store ::
      (k in s.store && t.store[k] == s.store[k]) || EntryOk(read, t.dbs, t.clock, t.store[k])
    requires forall id | id in t.flights ::
      (id in s.flights && t.flights[id] == Excuse(s.flights[id], gone)) || FlightOk(read, t, t.flights[id])
    ensures Inv(read, t)
  {
    forall k | k in t.store
      ensures EntryOk(read, t.dbs, t.clock, t.store[k])
    {
      if k in s.store && t.store[k] == s.store[k] {
        EntryFrame(read, s, t, gone, s.store[k]);
      }
    }
    forall id | id in t.flights
      ensures FlightOk(read, t, t.flights[id])
    {
      if id in s.flights && t.flights[id] == Excuse(s.flights[id], gone) {
        FlightFrame(read, s, t, gone, s.flights[id]);
      }
    }
    forall i | 0 <= i < |t.writes|
      ensures WriteOk(t, t.writes[i])
    {
      assert WriteOk(s, s.writes[i]);
    }
    forall i | 0 <= i < |t.hits|
      ensures HitOk(read, t, t.hits[i])
    {
      HitFrame(read, s, t, gone, s.hits[i]);
    }
  }

  lemma ExcuseNothing<Ans>(flights: map<nat, Flight<Ans>>)
    ensures forall id | id in flights :: Excuse(flights[id], {}) == flights[id]
  {
    assert forall id | id in flights && flights[id].Scanning? :: flights[id].due - {} == flights[id].due;
  }

  /** A step that changes no more than the database, the clock and one request. */
  lemma FlightStep<Db, Ans>(read: (Db, Option<Db>, Call) -> Ans, s: State<Db, Ans>, t: State<Db, Ans>, id: nat)
    requires Inv(read, s) && |t.dbs| == |s.dbs| + 1 && s.dbs <= t.dbs && s.clock <= t.clock
    requires t.store == s.store && t.writes == s.writes && t.hits == s.hits
    requires forall i | i in t.flights && i != id :: i in s.flights && t.flights[i] == s.flights[i]
    requires id in t.flights ==> (id in s.flights && t.flights[id] == s.flights[id]) || FlightOk(read, t, t.flights[id])
    ensures Inv(read, t)
  {
    ExcuseNothing(s.flights);
    FrameKeeps(read, s, t, {});
  }

  lemma StartStep<Db, Ans>(read: (Db, Option<Db>, Call) -> Ans, s: State<Db, Ans>, a: Action<Db>)
    requires Inv(read, s) && (a.Tick? || a.Outside? || a.Evict? || a.BeginRead? || a.BeginWrite?)
    ensures Inv(read, Next(read, s, a))
  {
    var t := Next(read, s, a);
    match a
    case Tick(_) => if t != s { FlightStep(read, s, t, 0); }
    case Outside(_) => FlightStep(read, s, t, 0);
    case Evict(key) => FrameKeeps(read, s, t, {key});
    case BeginRead(id, _) => if t != s { FlightStep(read, s, t, id); }
    case BeginWrite(id, _) => if t != s { FlightStep(read, s, t, id); }
  }

  lemma QuietReadOk<Db, Ans>(read: (Db, Option<Db>, Call) -> Ans, s: State<Db, Ans>, a: Action<Db>)
    requires Inv(read, s) && (a.Get? || a.Skip? || a.Handle? || a.First? || a.Second?)
    requires a.id in s.flights && Next(read, s, a) != s
    ensures var t := Next(read, s, a); a.id in t.flights ==> FlightOk(read, t, t.flights[a.id])
  {
    assert FlightOk(read, s, s.flights[a.id]);
  }

  lemma QuietReadChanges<Db, Ans>(read: (Db, Option<Db>, Call) -> Ans, s: State<Db, Ans>, a: Action<Db>)
    requires s.dbs != [] && (a.Get? || a.Skip? || a.Handle? || a.First? || a.Second?) && Next(read, s, a) != s
    ensures var t := Next(read, s, a);
      && |t.dbs| == |s.dbs| + 1 && s.dbs <= t.dbs && s.clock == t.clock
      && t.store == s.store && t.writes == s.writes
      && forall i | i in t.flights && i != a.id :: i in s.flights && t.flights[i] == s.flights[i]
  {
  }

  /** Steps of a read that neither serve a hit nor store an answer. */
  lemma QuietReadStep<Db, Ans>(read: (Db, Option<Db>, Call) -> Ans, s: State<Db, Ans>, a: Action<Db>)
    requires Inv(read, s) && (a.Get? || a.Skip? || a.Handle? || a.First? || a.Second?)
    requires a.id in s.flights && Next(read, s, a).hits == s.hits
    ensures Inv(read, Next(read, s, a))
  {
    if Next(read, s, a) != s {
      QuietReadOk(read, s, a);
      QuietReadChanges(read, s, a);
      FlightStep(read, s, Next(read, s, a), a.id);
    }
  }

  /** What a write has after a step is in order; a scan goes on to cover the user's entries. */
  lemma QuietWriteOk<Db, Ans>(read: (Db, Option<Db>, Call) -> Ans, s: State<Db, Ans>, a: Action<Db>)
    requires Inv(read, s) && (a.Apply? || a.BeginScan? || a.Page? || a.EndScan?)
    requires a.id in s.flights && Next(read, s, a) != s
    ensures var t := Next(read, s, a); a.id in t.flights ==> FlightOk(read, t, t.flights[a.id])
  {
    assert FlightOk(read, s, s.flights[a.id]);
    PrefixFindsOwn(s.store, s.flights[a.id].uid, s.clock);
  }

  /** Such a step changes no more than the database and its own request. */
  lemma QuietWriteChanges<Db, Ans>(read: (Db, Option<Db>, Call) -> Ans, s: State<Db, Ans>, a: Action<Db>)
    requires s.dbs != [] && (a.Apply? || a.BeginScan? || a.Page? || a.EndScan?) && Next(read, s, a) != s
    ensures var t := Next(read, s, a);
      && |t.dbs| == |s.dbs| + 1 && s.dbs <= t.dbs && s.clock == t.clock
      && t.store == s.store && t.writes == s.writes && t.hits == s.hits
      && forall i | i in t.flights && i != a.id :: i in s.flights && t.flights[i] == s.flights[i]
  {
  }

  /** Steps of a write that do not finish its invalidation. */
  lemma QuietWriteStep<Db, Ans>(read: (Db, Option<Db>, Call) -> Ans, s: State<Db, Ans>, a: Action<Db>)
    requires Inv(read, s) && (a.Apply? || a.BeginScan? || a.Page? || a.EndScan?)
    requires a.id in s.flights
    ensures Inv(read, Next(read, s, a))
  {
    if Next(read, s, a) != s {
      QuietWriteOk(read, s, a);
      QuietWriteChanges(read, s, a);
      FlightStep(read, s, Next(read, s, a), a.id);
    }
  }

  lemma OneCallPerKey(c: Call, d: Call)
    requires IsDigest(c.digest) && IsDigest(d.digest) && KeyOf(c) == KeyOf(d)
    ensures c == d
  {
    CacheKeyInjective(c.uid, c.tool, c.digest, d.uid, d.tool, d.digest);
  }

  lemma HitIsOk<Db, Ans>(
      read: (Db, Option<Db>, Call) -> Ans, s: State<Db, Ans>, t: State<Db, Ans>, h: Hit<Ans>, key: string)
    requires Inv(read, s) && Frame(s, t, {}) && t.writes == s.writes
    requires key in s.store && h == Hit(h.call, s.store[key], s.Now()) && h.entry.call == h.call
    requires Live(h.entry, s.clock)
    ensures HitOk(read, t, h)
  {
    EntryFrame(read, s, t, {}, h.entry);
    forall i | 0 <= i < |s.writes|
      ensures Overlapped(h, s.writes[i])
    {
      assert WriteOk(s, s.writes[i]);
    }
  }

  lemma GetServes<Db, Ans>(read: (Db, Option<Db>, Call) -> Ans, s: State<Db, Ans>, id: nat)
    requires s.dbs != [] && Next(read, s, Get(id)).hits != s.hits
    ensures id in s.flights && s.flights[id].Reading?
    ensures var call := s.flights[id].call;
      && KeyOf(call) in s.store && Live(s.store[KeyOf(call)], s.clock)
      && Next(read, s, Get(id)) == s.(dbs := s.dbs + [s.dbs[|s.dbs| - 1]], flights := s.flights - {id},
           hits := s.hits + [Hit(call, s.store[KeyOf(call)], s.Now())])
  {
  }

  lemma HitRecorded<Db, Ans>(read: (Db, Option<Db>, Call) -> Ans, s: State<Db, Ans>, h: Hit<Ans>)
    requires Inv(read, s) && HitOk(read, s, h)
    ensures Inv(read, s.(hits := s.hits + [h]))
  {
    var t := s.(hits := s.hits + [h]);
    forall i | 0 <= i < |t.hits|
      ensures HitOk(read, t, t.hits[i])
    {
      assert HitOk(read, s, t.hits[i]);
    }
    assert forall id | id in s.flights && FlightOk(read, s, s.flights[id]) :: FlightOk(read, t, t.flights[id]);
    assert forall i | 0 <= i < |s.writes| && WriteOk(s, s.writes[i]) :: WriteOk(t, t.writes[i]);
  }

  lemma HitStep<Db, Ans>(read: (Db, Option<Db>, Call) -> Ans, s: State<Db, Ans>, id: nat)
    requires Inv(read, s) && Next(read, s, Get(id)).hits != s.hits
    ensures Inv(read, Next(read, s, Get(id)))
  {
    GetServes(read, s, id);
    var call, t := s.flights[id].call, Next(read, s, Get(id)).(hits := s.hits);
    var key := KeyOf(call);
    var h := Hit(call, s.store[key], s.Now());
    FlightStep(read, s, t, id);
    assert FlightOk(read, s, s.flights[id]) && EntryOk(read, s.dbs, s.clock, s.store[key]);
    OneCallPerKey(call, h.entry.call);
    HitIsOk(read, s, t, h, key);
    HitRecorded(read, t, h);
  }

  /** What a Set stores. */
  function Stored<Db, Ans>(s: State<Db, Ans>, f: Flight<Ans>): Entry<Ans>
    requires s.dbs != [] && f.Answered?
  {
    Entry(f.call, f.answer, f.computed, f.last, s.Now(), s.clock + ToolTTL(f.call.tool))
  }

  lemma SetResult<Db, Ans>(read: (Db, Option<Db>, Call) -> Ans, s: State<Db, Ans>, id: nat)
    requires s.dbs != [] && id in s.flights && s.flights[id].Answered?
    ensures var t, f := Next(read, s, Set(id)), s.flights[id]; var key := KeyOf(f.call);
      && t.dbs == s.dbs + [s.dbs[|s.dbs| - 1]] && t.clock == s.clock && t.writes == s.writes && t.hits == s.hits
      && t.store == s.store[key := Stored(s, f)]
      && t.flights == if key in s.store && Live(s.store[key], s.clock) then s.flights - {id}
                      else Forget(s.flights - {id}, {key})
  {
  }

  lemma StoredOk<Db, Ans>(read: (Db, Option<Db>, Call) -> Ans, s: State<Db, Ans>, id: nat)
    requires Inv(read, s) && id in s.flights && s.flights[id].Answered?
    ensures EntryOk(read, s.dbs + [s.dbs[|s.dbs| - 1]], s.clock, Stored(s, s.flights[id]))
  {
    assert FlightOk(read, s, s.flights[id]);
  }

  /** A Set changes one key, and what it writes is in order. */
  lemma SetEntry<Db, Ans>(read: (Db, Option<Db>, Call) -> Ans, s: State<Db, Ans>, id: nat)
    requires Inv(read, s) && id in s.flights && s.flights[id].Answered?
    ensures var t, key := Next(read, s, Set(id)), KeyOf(s.flights[id].call);
      && t.dbs == s.dbs + [s.dbs[|s.dbs| - 1]] && t.clock == s.clock && t.writes == s.writes && t.hits == s.hits
      && t.store.Keys == s.store.Keys + {key}
      && (forall k | k in t.store && k != key :: t.store[k] == s.store[k])
      && WellKeyed(t.store) && EntryOk(read, t.dbs, t.clock, t.store[key])
      && t.store[key] == Stored(s, s.flights[id])
      && t.flights == if key in s.store && Live(s.store[key], s.clock) then s.flights - {id}
                      else Forget(s.flights - {id}, {key})
  {
    SetResult(read, s, id);
    StoredOk(read, s, id);
  }

  /** The key that a Set brings back, if it was absent. */
  function Returning<Db, Ans>(s: State<Db, Ans>, id: nat): set<string>
    requires id in s.flights && s.flights[id].Answered?
  {
    var key := KeyOf(s.flights[id].call);
    if key in s.store && Live(s.store[key], s.clock) then {} else {key}
  }

  lemma SetFrame<Db, Ans>(read: (Db, Option<Db>, Call) -> Ans, s: State<Db, Ans>, id: nat)
    requires Inv(read, s) && id in s.flights && s.flights[id].Answered?
    ensures Frame(s, Next(read, s, Set(id)), Returning(s, id))
    ensures var t := Next(read, s, Set(id));
      forall i | i in t.flights :: i in s.flights && t.flights[i] == Excuse(s.flights[i], Returning(s, id))
  {
    SetEntry(read, s, id);
    ExcuseNothing(s.flights);
  }

  lemma SetStep<Db, Ans>(read: (Db, Option<Db>, Call) -> Ans, s: State<Db, Ans>, id: nat)
    requires Inv(read, s)
    ensures Inv(read, Next(read, s, Set(id)))
  {
    var t := Next(read, s, Set(id));
    if id in s.flights && s.flights[id].Answered? {
      SetEntry(read, s, id);
      SetFrame(read, s, id);
      FrameKeeps(read, s, t, Returning(s, id));
    }
  }

  lemma WriteRecorded<Db, Ans>(read: (Db, Option<Db>, Call) -> Ans, s: State<Db, Ans>, w: Write)
    requires Inv(read, s) && WriteOk(s, w)
    requires forall i | 0 <= i < |s.hits| :: s.hits[i].at.step <= w.done
    ensures Inv(read, s.(writes := s.writes + [w]))
  {
    var t := s.(writes := s.writes + [w]);
    forall i | 0 <= i < |t.hits|
      ensures HitOk(read, t, t.hits[i])
    {
      assert HitOk(read, s, s.hits[i]) && Overlapped(s.hits[i], w);
    }
    assert forall id | id in s.flights && FlightOk(read, s, s.flights[id]) :: FlightOk(read, t, t.flights[id]);
    assert forall i | 0 <= i < |t.writes| && WriteOk(s, t.writes[i]) :: WriteOk(t, t.writes[i]);
  }

  lemma DeleteStep<Db, Ans>(read: (Db, Option<Db>, Call) -> Ans, s: State<Db, Ans>, id: nat)
    requires Inv(read, s)
    ensures Inv(read, Next(read, s, Delete(id)))
  {
    var t := Next(read, s, Delete(id));
    if t != s {
      var f, u := s.flights[id], t.(writes := s.writes);
      FrameKeeps(read, s, u, f.found);
      assert FlightOk(read, s, f) && WriteOk(u, t.writes[|s.writes|]);
      assert forall i | 0 <= i < |s.hits| && HitOk(read, s, s.hits[i]) :: s.hits[i].at.step < s.Step();
      WriteRecorded(read, u, t.writes[|s.writes|]);
    }
  }

  lemma {:induction false} InvHolds<Db, Ans>(read: (Db, Option<Db>, Call) -> Ans, db: Db, actions: seq<Action<Db>>)
    ensures Inv(read, After(read, db, actions))
  {
    if actions != [] {
      var s, a := After(read, db, actions[..|actions| - 1]), actions[|actions| - 1];
      InvHolds(read, db, actions[..|actions| - 1]);
      if a.Set? {
        SetStep(read, s, a.id);
      } else if a.Delete? {
        DeleteStep(read, s, a.id);
      } else if a.Get? && Next(read, s, a).hits != s.hits {
        HitStep(read, s, a.id);
      } else if a.Tick? || a.Outside? || a.Evict? || a.BeginRead? || a.BeginWrite? {
        StartStep(read, s, a);
      } else if a.id in s.flights {
        if a.Get? || a.Skip? || a.Handle? || a.First? || a.Second? {
          QuietReadStep(read, s, a);
        } else {
          QuietWriteStep(read, s, a);
        }
      }
    }
  }

  // Main results, for every run.

  /** A value computed before a user's write is served to that user after the write's invalidation only if the
      read that filled it straddled the write: it answered before the effect and stored after the scan began. */
  lemma StaleOnlyFromOverlap<Db, Ans>(
      read: (Db, Option<Db>, Call) -> Ans, db: Db, actions: seq<Action<Db>>, i: nat, j: nat)
    requires i < |After(read, db, actions).hits| && j < |After(read, db, actions).writes|
    ensures var h, w := After(read, db, actions).hits[i], After(read, db, actions).writes[j];
      h.call.uid == w.uid && w.done < h.at.step && h.entry.computed.step < w.effect ==>
        h.entry.computed.step < w.effect < w.began < h.entry.stored.step < h.at.step
  {
    InvHolds(read, db, actions);
    var s := After(read, db, actions);
    assert HitOk(read, s, s.hits[i]) && WriteOk(s, s.writes[j]) && Overlapped(s.hits[i], s.writes[j]);
  }

  /** Every hit is an answer Odoo gave to that very call, and its age is below the tool's TTL plus the time
      between the answer and its Set, whatever was written or evicted meanwhile. */
  lemma BoundedStaleness<Db, Ans>(read: (Db, Option<Db>, Call) -> Ans, db: Db, actions: seq<Action<Db>>, i: nat)
    requires i < |After(read, db, actions).hits|
    ensures var s := After(read, db, actions); var h := s.hits[i]; var e := h.entry;
      && e.computed.step < |s.dbs| && (e.last.Some? ==> e.computed.step <= e.last.value < e.stored.step < |s.dbs|)
      && e.answer == read(s.dbs[e.computed.step], if e.last.Some? then Some(s.dbs[e.last.value]) else None, h.call)
      && var age, delay := h.at.clock - e.computed.clock, e.stored.clock - e.computed.clock;
         var lives :=
           if h.call.tool == "odoo_list_models" then 3600.0
           else if h.call.tool == "odoo_fields_get" || h.call.tool == "odoo_get_server_info" then 300.0
           else 30.0;
         age < lives + delay
  {
    InvHolds(read, db, actions);
    var s := After(read, db, actions);
    assert HitOk(read, s, s.hits[i]);
  }

  /** A Get of a stored entry is a hit exactly while it has been stored for less than the tool's time. */
  lemma HitIffYoung<Db, Ans>(
      read: (Db, Option<Db>, Call) -> Ans, db: Db, actions: seq<Action<Db>>, id: nat)
    requires var s := After(read, db, actions);
      id in s.flights && s.flights[id].Reading? && KeyOf(s.flights[id].call) in s.store
    ensures var s := After(read, db, actions); var t, call := Next(read, s, Get(id)), s.flights[id].call;
      var e := s.store[KeyOf(call)]; var lives :=
        if call.tool == "odoo_list_models" then 3600.0
        else if call.tool == "odoo_fields_get" || call.tool == "odoo_get_server_info" then 300.0
        else 30.0;
      && (t.hits != s.hits <==> s.clock - e.stored.clock < lives)
      && (t.hits != s.hits ==> t.hits == s.hits + [Hit(call, e, s.Now())])
  {
    InvHolds(read, db, actions);
    var s := After(read, db, actions);
    var call := s.flights[id].call;
    var e := s.store[KeyOf(call)];
    assert FlightOk(read, s, s.flights[id]) && EntryOk(read, s.dbs, s.clock, e);
    OneCallPerKey(call, e.call);
    GetIffLive(read, s, id);
  }

  lemma GetIffLive<Db, Ans>(read: (Db, Option<Db>, Call) -> Ans, s: State<Db, Ans>, id: nat)
    requires s.dbs != [] && id in s.flights && s.flights[id].Reading? && KeyOf(s.flights[id].call) in s.store
    ensures var t, call := Next(read, s, Get(id)), s.flights[id].call; var e := s.store[KeyOf(call)];
      t.hits == if Live(e, s.clock) then s.hits + [Hit(call, e, s.Now())] else s.hits
  {
  }

  // Exactly when a finished write leaves a stale answer behind.

  /** Something of the user that a later Get can still serve, or will be able to, was computed before step `effect`. */
  ghost predicate HoldsOld<Db, Ans>(s: State<Db, Ans>, uid: int, effect: nat) {
    || (exists k :: k in s.store && OldEntry(s, s.store[k], uid, effect))
    || (exists id :: id in s.flights && OldAnswer(s.flights[id], uid, effect))
  }

  predicate OldEntry<Db, Ans>(s: State<Db, Ans>, e: Entry<Ans>, uid: int, effect: nat) {
    Live(e, s.clock) && e.call.uid == uid && e.computed.step < effect
  }

  predicate OldAnswer<Ans>(f: Flight<Ans>, uid: int, effect: nat) {
    (f.Half? || f.Answered?) && f.call.uid == uid && f.computed.step < effect
  }

  predicate OldHit<Ans>(h: Hit<Ans>, uid: int, effect: nat) {
    h.call.uid == uid && h.entry.computed.step < effect
  }

  /** The run can go on so that the user is served an answer computed before step `effect`. */
  ghost predicate CanServeOld<Db(!new), Ans>(
      read: (Db, Option<Db>, Call) -> Ans, db: Db, actions: seq<Action<Db>>, uid: int, effect: nat) {
    exists run: seq<Action<Db>>, i :: ServesOld(read, db, actions, run, i, uid, effect)
  }

  ghost predicate ServesOld<Db, Ans>(
      read: (Db, Option<Db>, Call) -> Ans, db: Db, actions: seq<Action<Db>>, run: seq<Action<Db>>,
      i: int, uid: int, effect: nat) {
    var hits := After(read, db, run).hits;
    && actions <= run
    && |After(read, db, actions).hits| <= i < |hits| && OldHit(hits[i], uid, effect)
  }

  lemma OneMore<Db, Ans>(read: (Db, Option<Db>, Call) -> Ans, db: Db, actions: seq<Action<Db>>, a: Action<Db>)
    ensures After(read, db, actions + [a]) == Next(read, After(read, db, actions), a)
  {
    assert (actions + [a])[..|actions + [a]| - 1] == actions;
  }

  lemma OneMoreLater<Db, Ans>(
      read: (Db, Option<Db>, Call) -> Ans, db: Db, actions: seq<Action<Db>>, init: seq<Action<Db>>, a: Action<Db>)
    ensures actions + (init + [a]) == actions + init + [a]
    ensures After(read, db, actions + (init + [a])) == Next(read, After(read, db, actions + init), a)
  {
    assert actions + (init + [a]) == actions + init + [a];
    OneMore(read, db, actions + init, a);
  }

  /** A step adds at most one hit, and it serves a live entry. */
  lemma HitsGrow<Db, Ans>(read: (Db, Option<Db>, Call) -> Ans, s: State<Db, Ans>, a: Action<Db>)
    requires s.dbs != []
    ensures var t := Next(read, s, a);
      || t.hits == s.hits
      || exists k ::
           && k in s.store && Live(s.store[k], s.clock)
           && |t.hits| == |s.hits| + 1 && t.hits[..|s.hits|] == s.hits && t.hits[|s.hits|].entry == s.store[k]
  {
    if a.Get? && Next(read, s, a).hits != s.hits {
      GetServes(read, s, a.id);
    }
  }

  /** What a step leaves in the store was there before, or comes from an answer under way. */
  lemma StoreComesFrom<Db, Ans>(read: (Db, Option<Db>, Call) -> Ans, s: State<Db, Ans>, a: Action<Db>, k: string)
    requires s.dbs != [] && k in Next(read, s, a).store
    ensures var e := Next(read, s, a).store[k];
      || (k in s.store && s.store[k] == e)
      || exists id :: id in s.flights && s.flights[id].Answered?
           && s.flights[id].call == e.call && s.flights[id].computed == e.computed
  {
  }

  /** An answer under way after a step was so before, or has just been begun. */
  lemma AnswerComesFrom<Db, Ans>(read: (Db, Option<Db>, Call) -> Ans, s: State<Db, Ans>, a: Action<Db>, id: nat)
    requires s.dbs != [] && id in Next(read, s, a).flights
    requires Next(read, s, a).flights[id].Half? || Next(read, s, a).flights[id].Answered?
    ensures var f := Next(read, s, a).flights[id];
      || (id in s.flights && (s.flights[id].Half? || s.flights[id].Answered?)
          && s.flights[id].call == f.call && s.flights[id].computed == f.computed)
      || f.computed == s.Now()
  {
  }

  lemma ClockGrows<Db, Ans>(read: (Db, Option<Db>, Call) -> Ans, s: State<Db, Ans>, a: Action<Db>)
    requires s.dbs != []
    ensures var t := Next(read, s, a); s.clock <= t.clock && |s.dbs| <= |t.dbs|
  {
  }

  lemma NothingOldAppears<Db, Ans>(
      read: (Db, Option<Db>, Call) -> Ans, s: State<Db, Ans>, a: Action<Db>, uid: int, effect: nat)
    requires s.dbs != [] && effect < |s.dbs| && !HoldsOld(s, uid, effect)
    ensures !HoldsOld(Next(read, s, a), uid, effect)
  {
    var t := Next(read, s, a);
    ClockGrows(read, s, a);
    forall k | k in t.store
      ensures !OldEntry(t, t.store[k], uid, effect)
    {
      StoreComesFrom(read, s, a, k);
      if k in s.store && s.store[k] == t.store[k] {
        assert !OldEntry(s, s.store[k], uid, effect);
      } else {
        var id :| id in s.flights && s.flights[id].Answered?
          && s.flights[id].call == t.store[k].call && s.flights[id].computed == t.store[k].computed;
        assert !OldAnswer(s.flights[id], uid, effect);
      }
    }
    forall id | id in t.flights
      ensures !OldAnswer(t.flights[id], uid, effect)
    {
      if t.flights[id].Half? || t.flights[id].Answered? {
        AnswerComesFrom(read, s, a, id);
        assert id in s.flights ==> !OldAnswer(s.flights[id], uid, effect);
      }
    }
  }

  lemma HitsNameTheirEntries<Db, Ans>(read: (Db, Option<Db>, Call) -> Ans, db: Db, actions: seq<Action<Db>>, i: nat)
    requires i < |After(read, db, actions).hits|
    ensures After(read, db, actions).hits[i].entry.call == After(read, db, actions).hits[i].call
  {
    InvHolds(read, db, actions);
    var s := After(read, db, actions);
    assert HitOk(read, s, s.hits[i]);
  }

  lemma NoOldHit<Db, Ans>(
      read: (Db, Option<Db>, Call) -> Ans, s: State<Db, Ans>, a: Action<Db>, uid: int, effect: nat, i: nat)
    requires s.dbs != [] && !HoldsOld(s, uid, effect) && |s.hits| <= i < |Next(read, s, a).hits|
    requires Next(read, s, a).hits[i].entry.call == Next(read, s, a).hits[i].call
    ensures !OldHit(Next(read, s, a).hits[i], uid, effect)
  {
    HitsGrow(read, s, a);
    var k :| k in s.store && Live(s.store[k], s.clock) && Next(read, s, a).hits[|s.hits|].entry == s.store[k];
    assert !OldEntry(s, s.store[k], uid, effect);
  }

  lemma NoOldHitAppears<Db, Ans>(
      read: (Db, Option<Db>, Call) -> Ans, db: Db, actions: seq<Action<Db>>, a: Action<Db>, uid: int, effect: nat,
      i: nat)
    requires !HoldsOld(After(read, db, actions), uid, effect)
    requires |After(read, db, actions).hits| <= i < |After(read, db, actions + [a]).hits|
    ensures !OldHit(After(read, db, actions + [a]).hits[i], uid, effect)
  {
    OneMore(read, db, actions, a);
    HitsNameTheirEntries(read, db, actions + [a], i);
    NoOldHit(read, After(read, db, actions), a, uid, effect, i);
  }

  lemma HitsStay<Db, Ans>(read: (Db, Option<Db>, Call) -> Ans, s: State<Db, Ans>, a: Action<Db>, i: nat)
    requires s.dbs != [] && i < |s.hits|
    ensures i < |Next(read, s, a).hits| && Next(read, s, a).hits[i] == s.hits[i]
  {
    HitsGrow(read, s, a);
    assert s.hits[i] == Next(read, s, a).hits[..|s.hits|][i];
  }

  lemma {:induction false} NothingOldRemains<Db, Ans>(
      read: (Db, Option<Db>, Call) -> Ans, db: Db, actions: seq<Action<Db>>, later: seq<Action<Db>>, uid: int, effect: nat)
    requires effect < |After(read, db, actions).dbs| && !HoldsOld(After(read, db, actions), uid, effect)
    ensures var t := After(read, db, actions + later); effect < |t.dbs| && !HoldsOld(t, uid, effect)
    decreases |later|
  {
    if later == [] {
      assert actions + later == actions;
    } else {
      var init, a := later[..|later| - 1], later[|later| - 1];
      NothingOldRemains(read, db, actions, init, uid, effect);
      assert later == init + [a];
      OneMoreLater(read, db, actions, init, a);
      NothingOldAppears(read, After(read, db, actions + init), a, uid, effect);
      ClockGrows(read, After(read, db, actions + init), a);
    }
  }

  lemma {:induction false} NothingOldIsServed<Db, Ans>(
      read: (Db, Option<Db>, Call) -> Ans, db: Db, actions: seq<Action<Db>>, later: seq<Action<Db>>,
      uid: int, effect: nat, i: nat)
    requires effect < |After(read, db, actions).dbs| && !HoldsOld(After(read, db, actions), uid, effect)
    requires |After(read, db, actions).hits| <= i < |After(read, db, actions + later).hits|
    ensures !OldHit(After(read, db, actions + later).hits[i], uid, effect)
    decreases |later|
  {
    assert later == [] ==> actions + later == actions;
    if later != [] {
      var init, a := later[..|later| - 1], later[|later| - 1];
      assert later == init + [a];
      OneMoreLater(read, db, actions, init, a);
      if i < |After(read, db, actions + init).hits| {
        NothingOldIsServed(read, db, actions, init, uid, effect, i);
        HitsStay(read, After(read, db, actions + init), a, i);
      } else {
        NothingOldRemains(read, db, actions, init, uid, effect);
        NoOldHitAppears(read, db, actions + init, a, uid, effect, i);
      }
    }
  }

  /** Two steps serve a live entry to its user. */
  lemma LiveIsServed<Db, Ans>(read: (Db, Option<Db>, Call) -> Ans, s: State<Db, Ans>, k: string, id: nat)
    requires Inv(read, s) && k in s.store && Live(s.store[k], s.clock) && id !in s.flights
    ensures var t := Next(read, Next(read, s, BeginRead(id, s.store[k].call)), Get(id));
      |t.hits| == |s.hits| + 1 && t.hits[|s.hits|].call == s.store[k].call && t.hits[|s.hits|].entry == s.store[k]
  {
    assert EntryOk(read, s.dbs, s.clock, s.store[k]);
    var began := Next(read, s, BeginRead(id, s.store[k].call));
    assert began.flights[id] == Reading(s.store[k].call) && KeyOf(s.store[k].call) == k;
  }

  lemma EntryCanBeServed<Db, Ans>(
      read: (Db, Option<Db>, Call) -> Ans, db: Db, actions: seq<Action<Db>>, k: string, uid: int, effect: nat)
    returns (run: seq<Action<Db>>)
    requires var s := After(read, db, actions); k in s.store && OldEntry(s, s.store[k], uid, effect)
    ensures ServesOld(read, db, actions, run, |After(read, db, actions).hits|, uid, effect)
  {
    var s := After(read, db, actions);
    InvHolds(read, db, actions);
    var id := FreshId(s.flights.Keys);
    LiveIsServed(read, s, k, id);
    var begin := BeginRead(id, s.store[k].call);
    OneMore(read, db, actions, begin);
    OneMore(read, db, actions + [begin], Get(id));
    run := actions + [begin] + [Get(id)];
  }

  /** One step stores an answer under way. */
  lemma AnswerIsStored<Db, Ans>(
      read: (Db, Option<Db>, Call) -> Ans, db: Db, actions: seq<Action<Db>>, id: nat, uid: int, effect: nat)
    requires var s := After(read, db, actions);
      id in s.flights && s.flights[id].Answered? && OldAnswer(s.flights[id], uid, effect)
    ensures var s, t := After(read, db, actions), After(read, db, actions + [Set(id)]);
      var key := KeyOf(s.flights[id].call);
      t.hits == s.hits && key in t.store && OldEntry(t, t.store[key], uid, effect)
  {
    InvHolds(read, db, actions);
    SetEntry(read, After(read, db, actions), id);
    OneMore(read, db, actions, Set(id));
  }

  lemma AnswerCanBeServed<Db, Ans>(
      read: (Db, Option<Db>, Call) -> Ans, db: Db, actions: seq<Action<Db>>, id: nat, uid: int, effect: nat)
    returns (run: seq<Action<Db>>)
    requires var s := After(read, db, actions);
      id in s.flights && s.flights[id].Answered? && OldAnswer(s.flights[id], uid, effect)
    ensures ServesOld(read, db, actions, run, |After(read, db, actions).hits|, uid, effect)
  {
    var key := KeyOf(After(read, db, actions).flights[id].call);
    AnswerIsStored(read, db, actions, id, uid, effect);
    run := EntryCanBeServed(read, db, actions + [Set(id)], key, uid, effect);
  }

  lemma SecondAnswers<Db, Ans>(read: (Db, Option<Db>, Call) -> Ans, s: State<Db, Ans>, id: nat)
    requires Inv(read, s) && id in s.flights && s.flights[id].Half?
    ensures var t, f := Next(read, s, Second(id)), s.flights[id];
      && t.hits == s.hits && id in t.flights && t.flights[id].Answered?
      && t.flights[id].call == f.call && t.flights[id].computed == f.computed
  {
    assert FlightOk(read, s, s.flights[id]);
  }

  lemma HalfCanBeServed<Db, Ans>(
      read: (Db, Option<Db>, Call) -> Ans, db: Db, actions: seq<Action<Db>>, id: nat, uid: int, effect: nat)
    returns (run: seq<Action<Db>>)
    requires var s := After(read, db, actions);
      id in s.flights && s.flights[id].Half? && OldAnswer(s.flights[id], uid, effect)
    ensures ServesOld(read, db, actions, run, |After(read, db, actions).hits|, uid, effect)
  {
    InvHolds(read, db, actions);
    SecondAnswers(read, After(read, db, actions), id);
    OneMore(read, db, actions, Second(id));
    run := AnswerCanBeServed(read, db, actions + [Second(id)], id, uid, effect);
  }

  /** At any point of any run, the user can still be served an answer older than a past step exactly when such an
      answer is in a live entry, or on its way into one. */
  lemma CanServeOldIff<Db(!new), Ans>(
      read: (Db, Option<Db>, Call) -> Ans, db: Db, actions: seq<Action<Db>>, uid: int, effect: nat)
    requires effect < |After(read, db, actions).dbs|
    ensures CanServeOld(read, db, actions, uid, effect) <==> HoldsOld(After(read, db, actions), uid, effect)
  {
    var s := After(read, db, actions);
    if HoldsOld(s, uid, effect) {
      if k :| k in s.store && OldEntry(s, s.store[k], uid, effect) {
        var run := EntryCanBeServed(read, db, actions, k, uid, effect);
      } else {
        var id :| id in s.flights && OldAnswer(s.flights[id], uid, effect);
        if s.flights[id].Half? {
          var run := HalfCanBeServed(read, db, actions, id, uid, effect);
        } else {
          var run := AnswerCanBeServed(read, db, actions, id, uid, effect);
        }
      }
    } else if CanServeOld(read, db, actions, uid, effect) {
      var run, i :| ServesOld(read, db, actions, run, i, uid, effect);
      assert run == actions + run[|actions|..];
      NothingOldIsServed(read, db, actions, run[|actions|..], uid, effect, i);
    }
  }

  /** After a write whose invalidation has finished, its user can still be served an answer from before the write
      exactly when a live entry or an answer under way is older than the write. */
  lemma StaleAfterWriteIff<Db(!new), Ans>(read: (Db, Option<Db>, Call) -> Ans, db: Db, actions: seq<Action<Db>>, j: nat)
    requires j < |After(read, db, actions).writes|
    ensures var s := After(read, db, actions); var w := s.writes[j];
      CanServeOld(read, db, actions, w.uid, w.effect) <==> HoldsOld(s, w.uid, w.effect)
  {
    InvHolds(read, db, actions);
    var s := After(read, db, actions);
    assert WriteOk(s, s.writes[j]);
    CanServeOldIff(read, db, actions, s.writes[j].uid, s.writes[j].effect);
  }

  lemma NotAmong(c: Call, uid: int, keys: set<string>)
    requires AllOf(uid, keys) && c.uid != uid
    ensures KeyOf(c) !in keys
  {
    PrefixIffOwner(c.uid, c.tool, c.digest, uid);
  }

  lemma DeletedKeys<Db, Ans>(read: (Db, Option<Db>, Call) -> Ans, s: State<Db, Ans>, id: nat)
    requires s.dbs != [] && id in s.flights && s.flights[id].Scanned?
    ensures Next(read, s, Delete(id)).store == s.store - s.flights[id].found
  {
  }

  lemma DeleteSparesOthers<Db, Ans>(read: (Db, Option<Db>, Call) -> Ans, s: State<Db, Ans>, id: nat, k: string)
    requires Inv(read, s) && id in s.flights && s.flights[id].Scanned?
    requires k in s.store && s.store[k].call.uid != s.flights[id].uid
    ensures var t := Next(read, s, Delete(id)); k in t.store && t.store[k] == s.store[k]
  {
    assert FlightOk(read, s, s.flights[id]);
    DeletedKeys(read, s, id);
    NotAmong(s.store[k].call, s.flights[id].uid, s.flights[id].found);
  }

  /** Invalidation never removes another user's entry. */
  lemma OthersKeepEntries<Db, Ans>(
      read: (Db, Option<Db>, Call) -> Ans, db: Db, actions: seq<Action<Db>>, id: nat, k: string)
    requires var s := After(read, db, actions);
      id in s.flights && s.flights[id].Scanned? && k in s.store && s.store[k].call.uid != s.flights[id].uid
    ensures var s := After(read, db, actions); var t := Next(read, s, Delete(id));
      k in t.store && t.store[k] == s.store[k]
  {
    InvHolds(read, db, actions);
    DeleteSparesOthers(read, After(read, db, actions), id, k);
  }

  /** The answer of the database as it is. */
  function Current(db: int, later: Option<int>, c: Call): int {
    db
  }

  /** A read that answers before a write and stores after its invalidation, and then a second read. */
  function Race(c: Call, n: nat): Action<int> {
    match n
    case 0 => BeginRead(0, c)
    case 1 => Get(0)
    case 2 => Handle(0, true)
    case 3 => BeginWrite(1, c.uid)
    case 4 => Apply(1, 1, true)
    case 5 => BeginScan(1)
    case 6 => EndScan(1)
    case 7 => Delete(1)
    case 8 => Set(0)
    case 9 => BeginRead(2, c)
    case _ => Get(2)
  }

  function RaceActions(c: Call, n: nat): seq<Action<int>> {
    if n == 0 then [] else RaceActions(c, n - 1) + [Race(c, n - 1)]
  }

  /** The states the race goes through. */
  function RaceState(c: Call, n: nat): State<int, int>
    requires n <= 11
  {
    var dbs := seq(n + 1, i => if i <= 4 then 0 else 1);
    var held := Answered(c, 0, Moment(2, 0.0), None);
    var e := Entry(c, 0, Moment(2, 0.0), None, Moment(8, 0.0), 0.0 + ToolTTL(c.tool));
    var cached := map[KeyOf(c) := e];
    match n
    case 0 => State(dbs, 0.0, map[], map[], [], [])
    case 1 => State(dbs, 0.0, map[], map[0 := Reading(c)], [], [])
    case 2 => State(dbs, 0.0, map[], map[0 := Missed(c)], [], [])
    case 3 => State(dbs, 0.0, map[], map[0 := held], [], [])
    case 4 => State(dbs, 0.0, map[], map[0 := held, 1 := Writing(c.uid)], [], [])
    case 5 => State(dbs, 0.0, map[], map[0 := held, 1 := Applied(c.uid, 4)], [], [])
    case 6 => State(dbs, 0.0, map[], map[0 := held, 1 := Scanning(c.uid, 4, 5, {}, {})], [], [])
    case 7 => State(dbs, 0.0, map[], map[0 := held, 1 := Scanned(c.uid, 4, 5, {})], [], [])
    case 8 => State(dbs, 0.0, map[], map[0 := held], [Write(c.uid, 4, 5, 7)], [])
    case 9 => State(dbs, 0.0, cached, map[], [Write(c.uid, 4, 5, 7)], [])
    case 10 => State(dbs, 0.0, cached, map[2 := Reading(c)], [Write(c.uid, 4, 5, 7)], [])
    case _ => State(dbs, 0.0, cached, map[], [Write(c.uid, 4, 5, 7)], [Hit(c, e, Moment(10, 0.0))])
  }

  lemma RaceWriteStep(c: Call, n: nat)
    requires IsDigest(c.digest) && n < 5
    ensures Next(Current, RaceState(c, n), Race(c, n)) == RaceState(c, n + 1)
  {
    assert RaceState(c, n).dbs + [if n + 1 <= 4 then 0 else 1] == RaceState(c, n + 1).dbs;
  }

  lemma RaceInvalidationStep(c: Call, n: nat)
    requires 5 <= n < 8
    ensures Next(Current, RaceState(c, n), Race(c, n)) == RaceState(c, n + 1)
  {
    assert RaceState(c, n).dbs + [1] == RaceState(c, n + 1).dbs;
    assert OwnLiveKeys<int>(map[], c.uid, 0.0) == {};
  }

  lemma RaceSetStep(c: Call)
    ensures Next(Current, RaceState(c, 8), Race(c, 8)) == RaceState(c, 9)
  {
    assert RaceState(c, 8).dbs + [1] == RaceState(c, 9).dbs;
  }

  lemma RaceHitStep(c: Call, n: nat)
    requires IsDigest(c.digest) && 9 <= n < 11
    ensures Next(Current, RaceState(c, n), Race(c, n)) == RaceState(c, n + 1)
  {
    assert RaceState(c, n).dbs + [1] == RaceState(c, n + 1).dbs;
  }

  lemma {:induction false} RaceRuns(c: Call, n: nat)
    requires IsDigest(c.digest) && n <= 11
    ensures After(Current, 0, RaceActions(c, n)) == RaceState(c, n)
  {
    if n > 0 {
      RaceRuns(c, n - 1);
      var actions := RaceActions(c, n);
      assert actions == RaceActions(c, n - 1) + [Race(c, n - 1)];
      assert actions[..|actions| - 1] == RaceActions(c, n - 1);
      if n <= 5 {
        RaceWriteStep(c, n - 1);
      } else if n <= 8 {
        RaceInvalidationStep(c, n - 1);
      } else if n == 9 {
        RaceSetStep(c);
      } else {
        RaceHitStep(c, n - 1);
      }
    }
  }

  /** The overlap does happen: after the write's invalidation the old answer 0 is still served. */
  lemma OverlapServesStale(c: Call)
    requires IsDigest(c.digest)
    ensures var s := After(Current, 0, RaceActions(c, 11));
      && |s.hits| == 1 && |s.writes| == 1 && s.dbs[|s.dbs| - 1] == 1
      && s.hits[0].entry.answer == 0 && s.writes[0].done < s.hits[0].at.step
  {
    RaceRuns(c, 11);
  }
}
