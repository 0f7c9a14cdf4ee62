/** The Valkey rate limiter: one counter per session and wall second, expiring one second after its first use. */
module ValkeyLimiter {
  import opened Wrappers
  import opened RateTrace
  import Keys

  /** A stored counter; it answers until `expireAt` and counts as absent from then on. */
  datatype Counter = Counter(count: nat, expireAt: real)

  type Store = map<string, Counter>

  predicate Live(store: Store, key: string, now: real) {
    key in store && now < store[key].expireAt
  }

  /** The atomic script: INCR, and EXPIRE 1 when the increment created the key. */
  function Script(store: Store, key: string, now: real): (Store, nat) {
    if Live(store, key, now) then
      var count := store[key].count + 1;
      (store[key := Counter(count, if count == 1 then now + 1.0 else store[key].expireAt)], count)
    else (store[key := Counter(1, now + 1.0)], 1)
  }

  /** The key of a request whose script runs in the second in which its clock was read. */
  function KeyOf(e: Event): string {
    Keys.RateKey(e.session, e.at.Floor)
  }

  function StoreAfter(tr: seq<Event>): Store {
    if tr == [] then map[]
    else
      var e := tr[|tr| - 1];
      Script(StoreAfter(tr[..|tr| - 1]), KeyOf(e), e.at).0
  }

  function Verdicts(rps: int, tr: seq<Event>): (ds: seq<bool>)
    ensures |ds| == |tr|
  {
    if tr == [] then []
    else
      var e := tr[|tr| - 1];
      Verdicts(rps, tr[..|tr| - 1]) + [Script(StoreAfter(tr[..|tr| - 1]), KeyOf(e), e.at).1 <= rps]
  }

  // The reference: counters that never expire.

  function Attempts(tr: seq<Event>, session: string, second: int): nat {
    if tr == [] then 0
    else
      var e := tr[|tr| - 1];
      Attempts(tr[..|tr| - 1], session, second) + if e.session == session && e.at.Floor == second then 1 else 0
  }

  function Admissions(tr: seq<Event>, ds: seq<bool>, session: string, second: int): nat
    requires |tr| == |ds|
  {
    if tr == [] then 0
    else
      var n := |tr| - 1;
      Admissions(tr[..n], ds[..n], session, second)
        + if tr[n].session == session && tr[n].at.Floor == second && ds[n] then 1 else 0
  }

  /** Counters without expiry: the request is admitted while fewer than rps came before it in its second. */
  function PlainVerdicts(rps: int, tr: seq<Event>): (ds: seq<bool>)
    ensures |ds| == |tr|
  {
    if tr == [] then []
    else
      var init, e := tr[..|tr| - 1], tr[|tr| - 1];
      PlainVerdicts(rps, init) + [Attempts(init, e.session, e.at.Floor) < rps]
  }

  lemma {:induction false} AttemptsNeedEvent(tr: seq<Event>, session: string, second: int)
    requires Chronological(tr) && Attempts(tr, session, second) > 0
    ensures tr != [] && second <= tr[|tr| - 1].at.Floor
  {
    var init := tr[..|tr| - 1];
    if Attempts(init, session, second) > 0 {
      AttemptsNeedEvent(init, session, second);
      assert init[|init| - 1].at <= tr[|tr| - 1].at;
    }
  }

  /** The stored counter of a used second holds all its attempts and outlives that second by less than one. */
  lemma {:induction false} StoreCounts(tr: seq<Event>, session: string, second: int)
    requires Chronological(tr)
    ensures var key := Keys.RateKey(session, second); var attempts := Attempts(tr, session, second);
      && (key in StoreAfter(tr) <==> attempts > 0)
      && (attempts > 0 ==>
            && StoreAfter(tr)[key].count == attempts
            && (second + 1) as real <= StoreAfter(tr)[key].expireAt < (second + 2) as real)
  {
    if tr != [] {
      var init, e := tr[..|tr| - 1], tr[|tr| - 1];
      StoreCounts(init, session, second);
      if KeyOf(e) == Keys.RateKey(session, second) {
        Keys.RateKeyInjective(e.session, e.at.Floor, session, second);
      }
    }
  }

  /** Expiry never changes a decision. */
  lemma {:induction false} ExpiryIsInvisible(rps: int, tr: seq<Event>)
    requires Chronological(tr)
    ensures Verdicts(rps, tr) == PlainVerdicts(rps, tr)
  {
    if tr != [] {
      var init, e := tr[..|tr| - 1], tr[|tr| - 1];
      ExpiryIsInvisible(rps, init);
      StoreCounts(init, e.session, e.at.Floor);
    }
  }

  /** Exactly min(attempts, rps) requests are admitted per session and wall second. */
  lemma {:induction false} AdmissionsPerSecond(rps: int, tr: seq<Event>, session: string, second: int)
    requires rps >= 0 && Chronological(tr)
    ensures Admissions(tr, Verdicts(rps, tr), session, second) == Min(Attempts(tr, session, second), rps)
  {
    if tr != [] {
      var init, e := tr[..|tr| - 1], tr[|tr| - 1];
      AdmissionsPerSecond(rps, init, session, second);
      StoreCounts(init, session, second);
      assert Verdicts(rps, tr)[..|tr| - 1] == Verdicts(rps, init);
    }
  }

  /** Admissions summed over n seconds from `first`. */
  function Admitted(tr: seq<Event>, ds: seq<bool>, session: string, first: int, n: nat): nat
    requires |tr| == |ds|
  {
    if n == 0 then 0
    else Admitted(tr, ds, session, first, n - 1) + Admissions(tr, ds, session, first + n - 1)
  }

  lemma {:induction false} AdmittedStep(tr: seq<Event>, ds: seq<bool>, session: string, first: int, n: nat)
    requires |tr| == |ds| && tr != []
    ensures var k := |tr| - 1; var s := tr[k].at.Floor;
      Admitted(tr, ds, session, first, n) == Admitted(tr[..k], ds[..k], session, first, n)
        + if tr[k].session == session && ds[k] && first <= s < first + n then 1 else 0
  {
    if n > 0 {
      AdmittedStep(tr, ds, session, first, n - 1);
    }
  }

  lemma {:induction false} WindowWithinSeconds(
      tr: seq<Event>, ds: seq<bool>, session: string, from: real, len: real, n: nat)
    requires |tr| == |ds|
    requires (from + len).Floor < from.Floor + n
    ensures SessionInWindow(tr, ds, session, from, len) <= Admitted(tr, ds, session, from.Floor, n)
  {
    if tr != [] {
      WindowWithinSeconds(tr[..|tr| - 1], ds[..|tr| - 1], session, from, len, n);
      AdmittedStep(tr, ds, session, from.Floor, n);
    }
  }

  /** rps * n, written as a sum to keep the arithmetic linear. */
  function Total(rps: int, n: nat): int {
    if n == 0 then 0 else Total(rps, n - 1) + rps
  }

  lemma {:induction false} TotalIsProduct(rps: int, n: nat)
    ensures Total(rps, n) == rps * n
  {
    if n > 0 {
      TotalIsProduct(rps, n - 1);
      assert rps * (n - 1) + rps == rps * n;
    }
  }

  lemma {:induction false} AdmittedBound(rps: int, tr: seq<Event>, session: string, first: int, n: nat)
    requires rps >= 0 && Chronological(tr)
    ensures Admitted(tr, Verdicts(rps, tr), session, first, n) <= Total(rps, n)
  {
    if n > 0 {
      AdmittedBound(rps, tr, session, first, n - 1);
      AdmissionsPerSecond(rps, tr, session, first + n - 1);
    }
  }

  function Ceil(x: real): int {
    -((-x).Floor)
  }

  /** Any closed interval of length `len` admits at most rps * (ceil(len) + 1). */
  lemma ValkeyWindow(rps: int, tr: seq<Event>, session: string, from: real, len: real)
    requires rps >= 1 && Chronological(tr) && len >= 0.0
    ensures SessionInWindow(tr, Verdicts(rps, tr), session, from, len) <= rps * (Ceil(len) + 1)
  {
    var n := Ceil(len) + 1;
    WindowWithinSeconds(tr, Verdicts(rps, tr), session, from, len, n);
    AdmittedBound(rps, tr, session, from.Floor, n);
    TotalIsProduct(rps, n);
  }

  lemma ValkeySecond(rps: int, tr: seq<Event>, session: string, from: real)
    requires rps >= 1 && Chronological(tr)
    ensures SessionInWindow(tr, Verdicts(rps, tr), session, from, 1.0) <= 2 * rps
  {
    WindowWithinSeconds(tr, Verdicts(rps, tr), session, from, 1.0, 2);
    AdmittedBound(rps, tr, session, from.Floor, 2);
    assert Total(rps, 2) == Total(rps, 1) + rps == 2 * rps;
  }

  lemma ValkeyMeetsInterface(rps: int, tr: seq<Event>)
    requires rps >= 1 && Chronological(tr)
    ensures MeetsInterface(rps, tr, Verdicts(rps, tr))
  {
    forall session, from
      ensures SessionInWindow(tr, Verdicts(rps, tr), session, from, 1.0) <= 2 * rps
    {
      ValkeySecond(rps, tr, session, from);
    }
  }

  // The bound is reached.

  /** The first second of the window from `from` on is used at once, the others when they begin. */
  function BurstTime(from: real, second: nat): real {
    if second == 0 then from else second as real
  }

  /** Bursts of rps requests in each of the seconds before `second`, and n more in that one. */
  function Bursts(rps: nat, session: string, from: real, second: nat, n: nat): seq<Event>
    decreases second, n
  {
    if n > 0 then Bursts(rps, session, from, second, n - 1) + [Event(session, BurstTime(from, second))]
    else if second > 0 then Bursts(rps, session, from, second - 1, rps)
    else []
  }

  lemma BurstSecond(from: real, second: nat)
    requires 0.0 <= from < 1.0
    ensures BurstTime(from, second).Floor == second
  {
  }

  lemma OneMoreAttempt(tr: seq<Event>, e: Event, session: string, second: int)
    ensures Attempts(tr + [e], session, second)
         == Attempts(tr, session, second) + if e.session == session && e.at.Floor == second then 1 else 0
  {
    assert (tr + [e])[..|tr + [e]| - 1] == tr;
  }

  lemma BurstAttempt(rps: nat, session: string, from: real, second: nat, n: nat, of: nat)
    requires 0.0 <= from < 1.0
    ensures Attempts(Bursts(rps, session, from, second, n + 1), session, of)
         == Attempts(Bursts(rps, session, from, second, n), session, of) + if of == second then 1 else 0
  {
    BurstSecond(from, second);
    OneMoreAttempt(Bursts(rps, session, from, second, n), Event(session, BurstTime(from, second)), session, of);
  }

  lemma {:induction false} BurstAttempts(rps: nat, session: string, from: real, second: nat, n: nat, of: nat)
    requires 0.0 <= from < 1.0 && n <= rps
    ensures Attempts(Bursts(rps, session, from, second, n), session, of)
         == if of < second then rps else if of == second then n else 0
    decreases second, n
  {
    if n > 0 {
      BurstAttempts(rps, session, from, second, n - 1, of);
      BurstAttempt(rps, session, from, second, n - 1, of);
    } else if second > 0 {
      BurstAttempts(rps, session, from, second - 1, rps, of);
    }
  }

  lemma {:induction false} BurstsInOrder(rps: nat, session: string, from: real, second: nat, n: nat)
    requires 0.0 <= from < 1.0 && n <= rps
    ensures var tr := Bursts(rps, session, from, second, n);
      Chronological(tr) && |tr| == Total(rps, second) + n && forall i | 0 <= i < |tr| :: tr[i].at <= BurstTime(from, second)
    decreases second, n
  {
    if n > 0 {
      BurstsInOrder(rps, session, from, second, n - 1);
      ChronologicalAppend(Bursts(rps, session, from, second, n - 1), Event(session, BurstTime(from, second)));
    } else if second > 0 {
      BurstsInOrder(rps, session, from, second - 1, rps);
    }
  }

  lemma PlainStep(rps: int, tr: seq<Event>, e: Event)
    ensures PlainVerdicts(rps, tr + [e]) == PlainVerdicts(rps, tr) + [Attempts(tr, e.session, e.at.Floor) < rps]
  {
    assert (tr + [e])[..|tr + [e]| - 1] == tr;
  }

  /** Every request of the trace is one of the session's, in the window, and admitted. */
  ghost predicate AllAdmitted(rps: int, tr: seq<Event>, session: string, from: real, len: real) {
    SessionInWindow(tr, PlainVerdicts(rps, tr), session, from, len) == |tr|
  }

  lemma BurstStep(rps: nat, tr: seq<Event>, e: Event, from: real, len: real)
    requires Attempts(tr, e.session, e.at.Floor) < rps && from <= e.at <= from + len
    requires AllAdmitted(rps, tr, e.session, from, len)
    ensures AllAdmitted(rps, tr + [e], e.session, from, len)
  {
    PlainStep(rps, tr, e);
    SessionWindowStep(tr, PlainVerdicts(rps, tr), e, true, e.session, from, len);
  }

  /** One more request of a burst that is not yet complete. */
  lemma BurstGrows(rps: nat, session: string, from: real, len: real, second: nat, n: nat)
    requires 0.0 <= from < 1.0 && 0 < n <= rps && BurstTime(from, second) <= from + len
    requires AllAdmitted(rps, Bursts(rps, session, from, second, n - 1), session, from, len)
    ensures AllAdmitted(rps, Bursts(rps, session, from, second, n), session, from, len)
  {
    var init, e := Bursts(rps, session, from, second, n - 1), Event(session, BurstTime(from, second));
    BurstAttempts(rps, session, from, second, n - 1, second);
    assert e.at.Floor == second;
    BurstStep(rps, init, e, from, len);
  }

  /** Every request of the bursts is admitted, and lies in every window that reaches from `from` to their last second. */
  lemma {:induction false} BurstsAdmitted(rps: nat, session: string, from: real, len: real, second: nat, n: nat)
    requires 0.0 <= from < 1.0 && n <= rps && BurstTime(from, second) <= from + len
    ensures AllAdmitted(rps, Bursts(rps, session, from, second, n), session, from, len)
    decreases second, n
  {
    if n > 0 {
      BurstsAdmitted(rps, session, from, len, second, n - 1);
      BurstGrows(rps, session, from, len, second, n);
    } else if second > 0 {
      BurstsAdmitted(rps, session, from, len, second - 1, rps);
    }
  }

  lemma BurstsFillWindow(rps: nat, session: string, from: real, len: real, n: nat)
    requires 0.0 <= from < 1.0 && BurstTime(from, n) <= from + len
    ensures var tr := Bursts(rps, session, from, n, rps);
      Chronological(tr) && SessionInWindow(tr, Verdicts(rps, tr), session, from, len) == Total(rps, n + 1)
  {
    BurstsInOrder(rps, session, from, n, rps);
    BurstsAdmitted(rps, session, from, len, n, rps);
    ExpiryIsInvisible(rps, Bursts(rps, session, from, n, rps));
  }

  /** For every rate and every length some window admits as much as the bound allows. */
  lemma ValkeyWindowIsTight(rps: nat, session: string, len: real) returns (tr: seq<Event>, from: real)
    requires rps >= 1 && len >= 0.0
    ensures Chronological(tr)
    ensures SessionInWindow(tr, Verdicts(rps, tr), session, from, len) == rps * (Ceil(len) + 1)
  {
    var n := Ceil(len);
    from := n as real - len;
    tr := Bursts(rps, session, from, n, rps);
    BurstsFillWindow(rps, session, from, len, n);
    TotalIsProduct(rps, n + 1);
  }

  /** At any later instant only the counters of the current and the previous second are live. */
  lemma CounterSpace(tr: seq<Event>, session: string, second: int, now: real)
    requires Chronological(tr) && (tr != [] ==> tr[|tr| - 1].at <= now)
    requires Live(StoreAfter(tr), Keys.RateKey(session, second), now)
    ensures second == now.Floor || second == now.Floor - 1
  {
    StoreCounts(tr, session, second);
    AttemptsNeedEvent(tr, session, second);
  }

  /** Scripts run on one key at the given times. */
  function KeyRun(key: string, ts: seq<real>): Store {
    if ts == [] then map[] else Script(KeyRun(key, ts[..|ts| - 1]), key, ts[|ts| - 1]).0
  }

  /** Without the link between key and clock, a counter still counts every attempt
      exactly when the last script runs less than a second after the first. */
  lemma {:induction false} CountsAllIffWithinSecond(key: string, ts: seq<real>)
    requires ts != [] && Sorted(ts)
    ensures key in KeyRun(key, ts)
    ensures KeyRun(key, ts)[key].count == |ts| <==> ts[|ts| - 1] < ts[0] + 1.0
    ensures ts[|ts| - 1] < ts[0] + 1.0 ==> KeyRun(key, ts)[key].expireAt == ts[0] + 1.0
    ensures KeyRun(key, ts)[key].count <= |ts|
  {
    var init := ts[..|ts| - 1];
    if init != [] {
      CountsAllIffWithinSecond(key, init);
      assert init[0] == ts[0] && init[|init| - 1] <= ts[|ts| - 1];
    }
  }

  class Valkey {
    var store: Store

    constructor ()
      ensures store == map[]
    {
      store := map[];
    }

    method Eval(key: string, now: real) returns (count: nat)
      modifies this
      ensures (store, count) == Script(old(store), key, now)
    {
      count := 1;
      if key in store && now < store[key].expireAt {
        count := store[key].count + 1;
        store := store[key := store[key].(count := count)];
      } else {
        store := store[key := Counter(count, now + 1.0)];
      }
      if count == 1 {
        store := store[key := store[key].(expireAt := now + 1.0)];
      }
      assert store == Script(old(store), key, now).0;
    }
  }

  ghost predicate Tracks(store: Store, tr: seq<Event>) {
    Chronological(tr) && store == StoreAfter(tr)
  }

  lemma OneMoreScript(tr: seq<Event>, e: Event)
    ensures StoreAfter(tr + [e]) == Script(StoreAfter(tr), KeyOf(e), e.at).0
  {
    assert (tr + [e])[..|tr + [e]| - 1] == tr;
  }

  /** The count tells how many attempts of the session's second came before. */
  lemma ScriptCounts(tr: seq<Event>, e: Event)
    requires Chronological(tr)
    ensures Script(StoreAfter(tr), KeyOf(e), e.at).1 == Attempts(tr, e.session, e.at.Floor) + 1
  {
    StoreCounts(tr, e.session, e.at.Floor);
  }

  /** One more verdict, by the attempts before it. */
  lemma OneMoreVerdict(rps: int, tr: seq<Event>, e: Event)
    requires Chronological(tr)
    ensures Verdicts(rps, tr + [e]) == Verdicts(rps, tr) + [Attempts(tr, e.session, e.at.Floor) < rps]
  {
    ScriptCounts(tr, e);
    assert (tr + [e])[..|tr + [e]| - 1] == tr;
  }

  lemma ScriptTracks(rps: int, store: Store, tr: seq<Event>, e: Event)
    requires Tracks(store, tr) && (tr != [] ==> tr[|tr| - 1].at <= e.at)
    ensures Tracks(Script(store, KeyOf(e), e.at).0, tr + [e])
    ensures Script(store, KeyOf(e), e.at).1 <= rps <==> Attempts(tr, e.session, e.at.Floor) < rps
  {
    ChronologicalAppend(tr, e);
    OneMoreScript(tr, e);
    ScriptCounts(tr, e);
  }

  /** How the script call goes: answered, never run, or run with its answer lost. */
  datatype Exchange = Replied | Unreached | ReplyLost

  class ValkeyRateLimiter {
    const rps: int
    const client: Valkey
    ghost var history: seq<Event>

    ghost predicate Valid()
      reads this, client
    {
      rps >= 1 && Tracks(client.store, history)
    }

    constructor (client: Valkey, rps: int)
      requires rps >= 1 && client.store == map[]
      ensures Valid() && this.rps == rps && this.client == client && history == []
    {
      this.rps, this.client, history := rps, client, [];
    }

    /** A failed exchange is reported as such; the request counts exactly if the script ran all the same. */
    method Check(session: string, now: real, exchange: Exchange) returns (v: Verdict)
      requires Valid()
      requires history == [] || history[|history| - 1].at <= now
      modifies this, client
      ensures Valid()
      ensures history == old(history) + if exchange.Unreached? then [] else [Event(session, now)]
      ensures exchange.Unreached? ==> client.store == old(client.store)
      ensures v ==
        if !exchange.Replied? then BackendError
        else if Attempts(old(history), session, now.Floor) < rps then Allowed else RateLimited
    {
      if exchange.Unreached? {
        return BackendError;
      }
      ghost var e := Event(session, now);
      ScriptTracks(rps, client.store, history, e);
      var count := client.Eval(Keys.RateKey(session, now.Floor), now);
      history := history + [e];
      if exchange.ReplyLost? {
        return BackendError;
      }
      v := if count > rps then RateLimited else Allowed;
    }
  }
}
