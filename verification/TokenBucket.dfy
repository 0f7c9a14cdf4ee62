/** The in-memory rate limiter: one lazily refilled token bucket per session. */
module TokenBucket {
  import opened Wrappers
  import opened RateTrace

  /** The contents of a bucket: its tokens and when they were last refilled. */
  datatype Level = Level(tokens: real, at: real)

  /** Tokens earned over `elapsed` seconds: elapsed * rps, written as a sum to keep the arithmetic linear. */
  function Earned(rps: int, elapsed: real): real {
    if rps <= 0 then 0.0 else elapsed + Earned(rps - 1, elapsed)
  }

  lemma {:induction false} EarnedIsProduct(rps: int, elapsed: real)
    requires rps >= 0
    ensures Earned(rps, elapsed) == elapsed * rps as real
  {
    if rps > 0 {
      EarnedIsProduct(rps - 1, elapsed);
      assert elapsed * (rps - 1) as real + elapsed == elapsed * rps as real;
    }
  }

  lemma {:induction false} EarnedAdds(rps: int, x: real, y: real)
    ensures Earned(rps, x + y) == Earned(rps, x) + Earned(rps, y)
    decreases rps
  {
    if rps > 0 {
      EarnedAdds(rps - 1, x, y);
    }
  }

  lemma {:induction false} EarnedGrows(rps: int, x: real, y: real)
    requires x <= y
    ensures Earned(rps, x) <= Earned(rps, y)
    decreases rps
  {
    if rps > 0 {
      EarnedGrows(rps - 1, x, y);
    }
  }

  lemma {:induction false} EarnedNothing(rps: int)
    ensures Earned(rps, 0.0) == 0.0
  {
    if rps > 0 {
      EarnedNothing(rps - 1);
    }
  }

  /** The tokens a request finds at `now`; a session without a bucket gets a full one. */
  function Available(rps: int, prev: Option<Level>, now: real): real {
    var b := if prev.Some? then prev.value else Level(rps as real, now);
    var refilled := b.tokens + Earned(rps, now - b.at);
    if refilled > rps as real then rps as real else refilled
  }

  function Spend(tokens: real): real {
    if tokens >= 1.0 then tokens - 1.0 else tokens
  }

  // One session alone.

  function LevelAfter(rps: int, ts: seq<real>): Option<Level> {
    if ts == [] then None
    else
      var now := ts[|ts| - 1];
      Some(Level(Spend(Available(rps, LevelAfter(rps, ts[..|ts| - 1]), now)), now))
  }

  /** The tokens found by the last request of `ts`. */
  function TokensAt(rps: int, ts: seq<real>): real
    requires ts != []
  {
    Available(rps, LevelAfter(rps, ts[..|ts| - 1]), ts[|ts| - 1])
  }

  function Decisions(rps: int, ts: seq<real>): (ds: seq<bool>)
    ensures |ds| == |ts|
  {
    if ts == [] then [] else Decisions(rps, ts[..|ts| - 1]) + [TokensAt(rps, ts) >= 1.0]
  }

  lemma {:induction false} DecisionsPrefix(rps: int, ts: seq<real>, n: nat)
    requires n <= |ts|
    ensures Decisions(rps, ts)[..n] == Decisions(rps, ts[..n])
  {
    if n < |ts| {
      DecisionsPrefix(rps, ts[..|ts| - 1], n);
      assert ts[..|ts| - 1][..n] == ts[..n];
    } else {
      assert ts[..n] == ts;
    }
  }

  /** What request j could still use if only the requests from i on mattered. */
  function Slack(rps: int, ts: seq<real>, ds: seq<bool>, i: nat, j: nat): real
    requires i <= j < |ts| && j <= |ds|
  {
    rps as real + Earned(rps, ts[j] - ts[i]) - Count(ds, i, j) as real
  }

  lemma SlackStep(rps: int, ts: seq<real>, ds: seq<bool>, i: nat, j: nat)
    requires i <= j && j + 1 < |ts| && j + 1 <= |ds|
    ensures Slack(rps, ts, ds, i, j + 1)
         == Slack(rps, ts, ds, i, j) + Earned(rps, ts[j + 1] - ts[j]) - if ds[j] then 1.0 else 0.0
  {
    EarnedAdds(rps, ts[j + 1] - ts[j], ts[j] - ts[i]);
    assert ts[j + 1] - ts[j] + (ts[j] - ts[i]) == ts[j + 1] - ts[i];
  }

  /** The lazily refilled, capped token count is the least slack over all earlier starts. */
  lemma {:induction false} TokensAreLeastSlack(rps: int, ts: seq<real>, ds: seq<bool>) returns (tight: nat)
    requires ts != [] && ds == Decisions(rps, ts)
    ensures var j := |ts| - 1; forall i | 0 <= i <= j :: TokensAt(rps, ts) <= Slack(rps, ts, ds, i, j)
    ensures tight < |ts| && TokensAt(rps, ts) == Slack(rps, ts, ds, tight, |ts| - 1)
  {
    var j := |ts| - 1;
    tight := j;
    EarnedNothing(rps);
    assert Slack(rps, ts, ds, j, j) == rps as real;
    if j > 0 {
      var us, es := ts[..j], Decisions(rps, ts[..j]);
      var before := TokensAreLeastSlack(rps, us, es);
      forall i | 0 <= i < j
        ensures Slack(rps, ts, ds, i, j)
             == Slack(rps, us, es, i, j - 1) + Earned(rps, ts[j] - ts[j - 1]) - if es[j - 1] then 1.0 else 0.0
      {
        CountPrefix(ds, es, i, j - 1);
        SlackStep(rps, ts, ds, i, j - 1);
      }
      var refilled := Spend(TokensAt(rps, us)) + Earned(rps, ts[j] - ts[j - 1]);
      assert TokensAt(rps, ts) == if refilled > rps as real then rps as real else refilled;
      assert refilled == Slack(rps, ts, ds, before, j);
      if refilled <= rps as real {
        tight := before;
      }
    }
  }

  /** Admitting request j keeps the admissions since request i within the allowance. */
  ghost predicate Affordable(rps: int, ts: seq<real>, ds: seq<bool>, i: nat, j: nat)
    requires i <= j < |ts| && j <= |ds|
  {
    (Count(ds, i, j) + 1) as real <= rps as real + Earned(rps, ts[j] - ts[i])
  }

  ghost predicate AlwaysAffordable(rps: int, ts: seq<real>, ds: seq<bool>, j: nat)
    requires j < |ts| && j <= |ds|
  {
    forall i | 0 <= i <= j :: Affordable(rps, ts, ds, i, j)
  }

  lemma ExactLast(rps: int, ts: seq<real>, ds: seq<bool>)
    requires ts != [] && ds == Decisions(rps, ts)
    ensures ds[|ts| - 1] <==> AlwaysAffordable(rps, ts, ds, |ts| - 1)
  {
    var tight := TokensAreLeastSlack(rps, ts, ds);
    var j := |ts| - 1;
    assert ds[j] == (TokensAt(rps, ts) >= 1.0);
    assert forall i | 0 <= i <= j :: Affordable(rps, ts, ds, i, j) == (Slack(rps, ts, ds, i, j) >= 1.0);
    assert Affordable(rps, ts, ds, tight, j) == ds[j];
  }

  /** A request is admitted exactly when it is affordable from every earlier start. */
  lemma ExactAdmission(rps: int, ts: seq<real>, ds: seq<bool>, j: nat)
    requires ds == Decisions(rps, ts) && j < |ts|
    ensures ds[j] <==> AlwaysAffordable(rps, ts, ds, j)
  {
    var us, es := ts[..j + 1], Decisions(rps, ts[..j + 1]);
    DecisionsPrefix(rps, ts, j + 1);
    ExactLast(rps, us, es);
    assert ds[..j] == ds[..j + 1][..j] == es[..j];
    forall i | 0 <= i <= j
      ensures Affordable(rps, us, es, i, j) == Affordable(rps, ts, ds, i, j)
    {
      CountPrefix(ds, es, i, j);
    }
    assert ds[j] == es[j];
  }

  /** The window law: at most rps + rps * (t_j - t_i) admitted among requests i..j. */
  ghost predicate ObeysWindows(rps: int, ts: seq<real>, ds: seq<bool>)
    requires |ts| == |ds|
  {
    forall i, j | 0 <= i <= j < |ts| :: Count(ds, i, j + 1) as real <= rps as real + Earned(rps, ts[j] - ts[i])
  }

  lemma {:induction false} WindowBound(rps: int, ts: seq<real>, i: nat, j: nat)
    requires rps >= 1 && Sorted(ts) && i <= j < |ts|
    ensures Count(Decisions(rps, ts), i, j + 1) as real <= rps as real + Earned(rps, ts[j] - ts[i])
    decreases j
  {
    EarnedNothing(rps);
    var ds := Decisions(rps, ts);
    if ds[j] {
      ExactAdmission(rps, ts, ds, j);
      assert Affordable(rps, ts, ds, i, j);
    } else if i < j {
      WindowBound(rps, ts, i, j - 1);
      EarnedGrows(rps, ts[j - 1] - ts[i], ts[j] - ts[i]);
    }
  }

  lemma BucketObeysWindows(rps: int, ts: seq<real>)
    requires rps >= 1 && Sorted(ts)
    ensures ObeysWindows(rps, ts, Decisions(rps, ts))
  {
    forall i, j | 0 <= i <= j < |ts|
      ensures Count(Decisions(rps, ts), i, j + 1) as real <= rps as real + Earned(rps, ts[j] - ts[i])
    {
      WindowBound(rps, ts, i, j);
    }
  }

  /** Greedy admission is optimal: no law-abiding set of admissions is ahead on any prefix. */
  lemma {:induction false} GreedyIsOptimal(rps: int, ts: seq<real>, es: seq<bool>, k: nat)
    requires |es| == |ts| && ObeysWindows(rps, ts, es) && k <= |ts|
    ensures Count(es, 0, k) <= Count(Decisions(rps, ts), 0, k)
  {
    var ds := Decisions(rps, ts);
    if k > 0 {
      GreedyIsOptimal(rps, ts, es, k - 1);
      if es[k - 1] && !ds[k - 1] {
        ExactAdmission(rps, ts, ds, k - 1);
        var i :| 0 <= i <= k - 1 && !Affordable(rps, ts, ds, i, k - 1);
        assert Count(es, i, k) <= Count(ds, i, k - 1);
        GreedyIsOptimal(rps, ts, es, i);
        CountSplit(es, 0, i, k);
        CountSplit(ds, 0, i, k - 1);
      }
    }
  }

  // Any number of sessions, interleaved.

  function Lookup(m: map<string, Level>, session: string): Option<Level> {
    if session in m then Some(m[session]) else None
  }

  function Serve(rps: int, m: map<string, Level>, e: Event): map<string, Level> {
    m[e.session := Level(Spend(Available(rps, Lookup(m, e.session), e.at)), e.at)]
  }

  predicate Admits(rps: int, m: map<string, Level>, e: Event) {
    Available(rps, Lookup(m, e.session), e.at) >= 1.0
  }

  function Levels(rps: int, tr: seq<Event>): map<string, Level> {
    if tr == [] then map[] else Serve(rps, Levels(rps, tr[..|tr| - 1]), tr[|tr| - 1])
  }

  function Verdicts(rps: int, tr: seq<Event>): (ds: seq<bool>)
    ensures |ds| == |tr|
  {
    if tr == [] then []
    else
      var init := tr[..|tr| - 1];
      Verdicts(rps, init) + [Admits(rps, Levels(rps, init), tr[|tr| - 1])]
  }

  lemma OneMore(rps: int, tr: seq<Event>, e: Event)
    ensures Levels(rps, tr + [e]) == Serve(rps, Levels(rps, tr), e)
    ensures Verdicts(rps, tr + [e]) == Verdicts(rps, tr) + [Admits(rps, Levels(rps, tr), e)]
  {
    assert (tr + [e])[..|tr + [e]| - 1] == tr;
  }

  /** A session's decisions and bucket are those of its own requests alone. */
  lemma {:induction false} SessionsIndependent(rps: int, tr: seq<Event>, session: string)
    ensures Lookup(Levels(rps, tr), session) == LevelAfter(rps, Times(tr, session))
    ensures Project(tr, Verdicts(rps, tr), session) == Decisions(rps, Times(tr, session))
  {
    if tr != [] {
      var n := |tr| - 1;
      SessionsIndependent(rps, tr[..n], session);
      assert Verdicts(rps, tr)[..n] == Verdicts(rps, tr[..n]);
      var ts := Times(tr, session);
      if tr[n].session == session {
        assert ts[..|ts| - 1] == Times(tr[..n], session);
      } else {
        assert ts == Times(tr[..n], session);
      }
    }
  }

  /** The last request is affordable from every earlier request of its own session. */
  ghost predicate LastAffordable(rps: int, tr: seq<Event>)
    requires tr != []
  {
    var ts := Times(tr, tr[|tr| - 1].session);
    ts != [] && AlwaysAffordable(rps, ts, Decisions(rps, ts), |ts| - 1)
  }

  /** The last verdict of an interleaved trace, read off the requests of its session alone. */
  lemma VerdictIsExact(rps: int, tr: seq<Event>)
    requires tr != []
    ensures Verdicts(rps, tr)[|tr| - 1] <==> LastAffordable(rps, tr)
  {
    var n := |tr| - 1;
    var ts := Times(tr, tr[n].session);
    SessionsIndependent(rps, tr, tr[n].session);
    var ps := Project(tr, Verdicts(rps, tr), tr[n].session);
    assert ps[|ps| - 1] == Verdicts(rps, tr)[n];
    ExactAdmission(rps, ts, Decisions(rps, ts), |ts| - 1);
  }

  /** The buckets are, session by session, what serving `tr` in time order left behind. */
  ghost predicate Tracks(rps: int, m: map<string, Level>, tr: seq<Event>) {
    Chronological(tr) && forall s :: Lookup(m, s) == Lookup(Levels(rps, tr), s)
  }

  lemma SameLookups(m: map<string, Level>, n: map<string, Level>)
    requires forall s :: Lookup(m, s) == Lookup(n, s)
    ensures m == n
  {
    forall s
      ensures s in m <==> s in n
      ensures s in m ==> m[s] == n[s]
    {
      assert Lookup(m, s) == Lookup(n, s);
    }
  }

  lemma ServeTracks(rps: int, m: map<string, Level>, tr: seq<Event>, e: Event)
    requires Tracks(rps, m, tr)
    requires tr != [] ==> tr[|tr| - 1].at <= e.at
    ensures Tracks(rps, Serve(rps, m, e), tr + [e])
    ensures Admits(rps, m, e) <==> LastAffordable(rps, tr + [e])
  {
    SameLookups(m, Levels(rps, tr));
    ChronologicalAppend(tr, e);
    OneMore(rps, tr, e);
    VerdictIsExact(rps, tr + [e]);
  }

  /** Every bucket stays within 0..rps. */
  lemma {:induction false} LevelsBounded(rps: int, tr: seq<Event>, session: string)
    requires rps >= 1 && Chronological(tr) && session in Levels(rps, tr)
    ensures 0.0 <= Levels(rps, tr)[session].tokens <= rps as real
    ensures tr != [] && Levels(rps, tr)[session].at <= tr[|tr| - 1].at
  {
    if tr != [] {
      var init := tr[..|tr| - 1];
      EarnedNothing(rps);
      if session in Levels(rps, init) {
        LevelsBounded(rps, init, session);
        assert init[|init| - 1] == tr[|tr| - 2];
        EarnedGrows(rps, 0.0, tr[|tr| - 1].at - Levels(rps, init)[session].at);
      }
    }
  }

  lemma SessionBucketWindow(rps: int, ts: seq<real>, from: real, len: real)
    requires rps >= 1 && Sorted(ts) && len >= 0.0
    ensures InWindow(ts, Decisions(rps, ts), from, len) as real <= rps as real + Earned(rps, len)
  {
    var lo, hi := WindowIsRange(ts, Decisions(rps, ts), from, len);
    if lo < hi {
      WindowBound(rps, ts, lo, hi - 1);
      EarnedGrows(rps, ts[hi - 1] - ts[lo], len);
    }
    EarnedNothing(rps);
    EarnedGrows(rps, 0.0, len);
  }

  /** At most rps + rps * len admissions of a session in any closed window of length len. */
  lemma BucketWindow(rps: int, tr: seq<Event>, session: string, from: real, len: real)
    requires rps >= 1 && Chronological(tr) && len >= 0.0
    ensures SessionInWindow(tr, Verdicts(rps, tr), session, from, len) as real <= rps as real + Earned(rps, len)
  {
    TimesSorted(tr, session);
    SessionsIndependent(rps, tr, session);
    SessionWindow(tr, Verdicts(rps, tr), session, from, len);
    SessionBucketWindow(rps, Times(tr, session), from, len);
  }

  // The bound is reached.

  /** A burst of rps requests at once, and then one after every gap, in which a token is earned. */
  function SteadyAt(rps: nat, gap: real, i: nat): real {
    if i < rps then 0.0 else if i == 0 then gap else SteadyAt(rps, gap, i - 1) + gap
  }

  function Steady(rps: nat, gap: real, session: string, n: nat): seq<Event> {
    if n == 0 then [] else Steady(rps, gap, session, n - 1) + [Event(session, SteadyAt(rps, gap, n - 1))]
  }

  ghost predicate EarnsToken(rps: nat, gap: real) {
    rps >= 1 && gap >= 0.0 && Earned(rps, gap) == 1.0
  }

  lemma {:induction false} SteadyEarns(rps: nat, gap: real, i: nat)
    requires EarnsToken(rps, gap)
    ensures SteadyAt(rps, gap, i) >= 0.0
    ensures Earned(rps, SteadyAt(rps, gap, i)) == if i < rps then 0.0 else (i - rps + 1) as real
  {
    if i < rps {
      EarnedNothing(rps);
    } else {
      SteadyEarns(rps, gap, i - 1);
      EarnedAdds(rps, SteadyAt(rps, gap, i - 1), gap);
    }
  }

  lemma {:induction false} EarnedGrowsStrictly(rps: int, x: real, y: real)
    requires rps >= 1 && x < y
    ensures Earned(rps, x) < Earned(rps, y)
  {
    if rps > 1 {
      EarnedGrowsStrictly(rps - 1, x, y);
    }
  }

  /** The last of n requests is within `len` while n does not exceed the bound. */
  lemma SteadyWithin(rps: nat, gap: real, n: nat, len: real)
    requires EarnsToken(rps, gap) && len >= 0.0 && n < rps + Earned(rps, len).Floor
    ensures 0.0 <= SteadyAt(rps, gap, n) <= len
  {
    SteadyEarns(rps, gap, n);
    if len < SteadyAt(rps, gap, n) {
      EarnedGrowsStrictly(rps, len, SteadyAt(rps, gap, n));
    }
  }

  lemma {:induction false} SteadyInOrder(rps: nat, gap: real, session: string, n: nat)
    requires EarnsToken(rps, gap)
    ensures Chronological(Steady(rps, gap, session, n)) && |Steady(rps, gap, session, n)| == n
    ensures n > 0 ==> Steady(rps, gap, session, n)[n - 1] == Event(session, SteadyAt(rps, gap, n - 1))
  {
    if n > 0 {
      SteadyInOrder(rps, gap, session, n - 1);
      ChronologicalAppend(Steady(rps, gap, session, n - 1), Event(session, SteadyAt(rps, gap, n - 1)));
    }
  }

  /** What n requests leave of the first burst. */
  function Left(rps: nat, n: nat): real {
    if n <= rps then (rps - n) as real else 0.0
  }

  /** The bucket after n of these requests. */
  function SteadyBucket(rps: nat, gap: real, n: nat): Option<Level> {
    if n == 0 then None else Some(Level(Left(rps, n), SteadyAt(rps, gap, n - 1)))
  }

  lemma BurstToken(rps: nat, gap: real, n: nat)
    requires EarnsToken(rps, gap) && n < rps
    ensures Available(rps, SteadyBucket(rps, gap, n), SteadyAt(rps, gap, n)) == (rps - n) as real
  {
    EarnedNothing(rps);
  }

  lemma EarnedToken(rps: nat, gap: real, n: nat)
    requires EarnsToken(rps, gap) && n >= rps
    ensures Available(rps, SteadyBucket(rps, gap, n), SteadyAt(rps, gap, n)) == 1.0
  {
    assert SteadyAt(rps, gap, n) - SteadyAt(rps, gap, n - 1) == gap;
  }

  lemma SteadyToken(rps: nat, gap: real, n: nat)
    requires EarnsToken(rps, gap)
    ensures var found := Available(rps, SteadyBucket(rps, gap, n), SteadyAt(rps, gap, n));
      found >= 1.0 && Spend(found) == Left(rps, n + 1)
  {
    if n < rps {
      BurstToken(rps, gap, n);
    } else {
      EarnedToken(rps, gap, n);
    }
  }

  /** Serving a request that finds the bucket so leaves the next one. */
  lemma SteadyServed(rps: nat, gap: real, m: map<string, Level>, session: string, n: nat)
    requires EarnsToken(rps, gap) && Lookup(m, session) == SteadyBucket(rps, gap, n)
    ensures var e := Event(session, SteadyAt(rps, gap, n));
      Admits(rps, m, e) && Lookup(Serve(rps, m, e), session) == SteadyBucket(rps, gap, n + 1)
  {
    SteadyToken(rps, gap, n);
  }

  lemma {:induction false} SteadyLevel(rps: nat, gap: real, session: string, n: nat)
    requires EarnsToken(rps, gap)
    ensures Lookup(Levels(rps, Steady(rps, gap, session, n)), session) == SteadyBucket(rps, gap, n)
    decreases n
  {
    if n > 0 {
      var init := Steady(rps, gap, session, n - 1);
      SteadyLevel(rps, gap, session, n - 1);
      SteadyServed(rps, gap, Levels(rps, init), session, n - 1);
      OneMore(rps, init, Event(session, SteadyAt(rps, gap, n - 1)));
    }
  }

  /** One more admitted request in the window. */
  lemma AdmittedInWindow(rps: int, tr: seq<Event>, e: Event, len: real)
    requires Admits(rps, Levels(rps, tr), e) && 0.0 <= e.at <= len
    ensures SessionInWindow(tr + [e], Verdicts(rps, tr + [e]), e.session, 0.0, len)
         == SessionInWindow(tr, Verdicts(rps, tr), e.session, 0.0, len) + 1
  {
    OneMore(rps, tr, e);
    SessionWindowStep(tr, Verdicts(rps, tr), e, true, e.session, 0.0, len);
  }

  predicate Within(rps: nat, gap: real, len: real, i: nat) {
    0.0 <= SteadyAt(rps, gap, i) <= len
  }

  /** All n requests are admitted in the window. */
  ghost predicate AllAdmitted(rps: nat, gap: real, session: string, len: real, n: nat) {
    var tr := Steady(rps, gap, session, n);
    SessionInWindow(tr, Verdicts(rps, tr), session, 0.0, len) == n
  }

  lemma SteadyAdmits(rps: nat, gap: real, session: string, len: real, n: nat)
    requires EarnsToken(rps, gap) && Within(rps, gap, len, n)
    requires AllAdmitted(rps, gap, session, len, n)
    ensures AllAdmitted(rps, gap, session, len, n + 1)
  {
    var init := Steady(rps, gap, session, n);
    SteadyLevel(rps, gap, session, n);
    SteadyServed(rps, gap, Levels(rps, init), session, n);
    AdmittedInWindow(rps, init, Event(session, SteadyAt(rps, gap, n)), len);
  }

  lemma NoneAdmitted(rps: nat, gap: real, session: string, len: real)
    ensures AllAdmitted(rps, gap, session, len, 0)
  {
  }

  lemma {:induction false} SteadyAdmitted(rps: nat, gap: real, session: string, len: real, n: nat)
    requires EarnsToken(rps, gap) && forall i: nat | i < n :: Within(rps, gap, len, i)
    ensures AllAdmitted(rps, gap, session, len, n)
    decreases n
  {
    if n == 0 {
      NoneAdmitted(rps, gap, session, len);
    } else {
      SteadyAdmitted(rps, gap, session, len, n - 1);
      SteadyAdmits(rps, gap, session, len, n - 1);
    }
  }

  /** For every rate and every length some trace is admitted as often as the bound allows. */
  lemma BucketWindowIsTight(rps: nat, session: string, len: real) returns (tr: seq<Event>)
    requires rps >= 1 && len >= 0.0
    ensures Chronological(tr)
    ensures SessionInWindow(tr, Verdicts(rps, tr), session, 0.0, len) == (rps as real + Earned(rps, len)).Floor
  {
    var gap := 1.0 / rps as real;
    EarnedIsProduct(rps, gap);
    EarnedNothing(rps);
    EarnedGrows(rps, 0.0, len);
    var n := rps + Earned(rps, len).Floor;
    tr := Steady(rps, gap, session, n);
    SteadyInOrder(rps, gap, session, n);
    forall i: nat | i < n
      ensures Within(rps, gap, len, i)
    {
      SteadyWithin(rps, gap, i, len);
    }
    SteadyAdmitted(rps, gap, session, len, n);
  }

  lemma BucketMeetsInterface(rps: int, tr: seq<Event>)
    requires rps >= 1 && Chronological(tr)
    ensures MeetsInterface(rps, tr, Verdicts(rps, tr))
  {
    forall session, from
      ensures SessionInWindow(tr, Verdicts(rps, tr), session, from, 1.0) <= 2 * rps
    {
      BucketWindow(rps, tr, session, from, 1.0);
      EarnedIsProduct(rps, 1.0);
    }
  }

  /** Each verdict is right for the request it answered. */
  ghost predicate RightVerdicts(rps: int, tr: seq<Event>, ds: seq<bool>) {
    |ds| == |tr| && forall n {:trigger tr[..n + 1]} | 0 <= n < |tr| :: ds[n] == LastAffordable(rps, tr[..n + 1])
  }

  lemma OneMoreVerdict(rps: int, tr: seq<Event>, ds: seq<bool>, e: Event, d: bool)
    requires RightVerdicts(rps, tr, ds) && d == LastAffordable(rps, tr + [e])
    ensures RightVerdicts(rps, tr + [e], ds + [d])
  {
    forall n | 0 <= n < |tr + [e]|
      ensures (ds + [d])[n] == LastAffordable(rps, (tr + [e])[..n + 1])
    {
      assert (tr + [e])[..n + 1] == if n < |tr| then tr[..n + 1] else tr + [e];
    }
  }

  lemma OneVerdictLess(rps: int, tr: seq<Event>, ds: seq<bool>)
    requires RightVerdicts(rps, tr, ds) && tr != []
    ensures var n := |tr| - 1; RightVerdicts(rps, tr[..n], ds[..n]) && ds[n] == LastAffordable(rps, tr)
  {
    var n := |tr| - 1;
    assert tr[..n + 1] == tr;
    forall k | 0 <= k < n
      ensures ds[..n][k] == LastAffordable(rps, tr[..n][..k + 1])
    {
      assert tr[..n][..k + 1] == tr[..k + 1];
    }
  }

  lemma {:induction false} RightVerdictsAreThose(rps: int, tr: seq<Event>, ds: seq<bool>)
    requires RightVerdicts(rps, tr, ds)
    ensures ds == Verdicts(rps, tr)
    decreases |tr|
  {
    if tr != [] {
      var n := |tr| - 1;
      OneVerdictLess(rps, tr, ds);
      RightVerdictsAreThose(rps, tr[..n], ds[..n]);
      VerdictIsExact(rps, tr);
      assert ds == ds[..n] + [ds[n]];
    }
  }

  // The limiter as the program has it: shared mutable buckets behind a map.

  class Bucket {
    var tokens: real
    var lastTime: real

    constructor (tokens: real, lastTime: real)
      ensures this.tokens == tokens && this.lastTime == lastTime
    {
      this.tokens, this.lastTime := tokens, lastTime;
    }

    /** Refill for the elapsed time, then take a token if there is one. */
    method Take(rps: int, now: real) returns (taken: bool)
      requires rps >= 1
      modifies this
      ensures var found := Available(rps, Some(Level(old(tokens), old(lastTime))), now);
        tokens == Spend(found) && lastTime == now && taken == (found >= 1.0)
    {
      var elapsed := now - lastTime;
      EarnedIsProduct(rps, elapsed);
      tokens := tokens + elapsed * rps as real;
      if tokens > rps as real {
        tokens := rps as real;
      }
      lastTime := now;
      taken := tokens >= 1.0;
      if taken {
        tokens := tokens - 1.0;
      }
    }
  }

  ghost predicate Unshared(buckets: map<string, Bucket>) {
    forall s, t | s in buckets && t in buckets && s != t :: buckets[s] != buckets[t]
  }

  class RateLimiter {
    const rps: int
    var buckets: map<string, Bucket>
    ghost var history: seq<Event>

    /** The buckets as values. */
    ghost function Contents(): map<string, Level>
      reads this, buckets.Values
    {
      map s | s in buckets :: Level(buckets[s].tokens, buckets[s].lastTime)
    }

    ghost predicate Valid()
      reads this, buckets.Values
    {
      && rps >= 1
      && Unshared(buckets)
      && Tracks(rps, Contents(), history)
    }

    constructor (rps: int)
      requires rps >= 1
      ensures Valid() && this.rps == rps && history == [] && buckets == map[]
    {
      this.rps := rps;
      buckets := map[];
      history := [];
    }

    /** The session's bucket; a new session gets a full one. */
    method BucketFor(session: string, now: real) returns (b: Bucket)
      requires Unshared(buckets)
      modifies this`buckets
      ensures session in buckets && buckets[session] == b && Unshared(buckets)
      ensures if session in old(buckets) then buckets == old(buckets)
              else fresh(b) && b.tokens == rps as real && b.lastTime == now && buckets == old(buckets)[session := b]
    {
      if session in buckets {
        b := buckets[session];
      } else {
        b := new Bucket(rps as real, now);
        assert b !in buckets.Values;
        buckets := buckets[session := b];
      }
    }

    method Take(session: string, now: real) returns (taken: bool)
      requires rps >= 1 && Unshared(buckets)
      modifies this`buckets, buckets.Values
      ensures Unshared(buckets) && fresh(buckets.Values - old(buckets.Values))
      ensures Contents() == Serve(rps, old(Contents()), Event(session, now))
      ensures taken == Admits(rps, old(Contents()), Event(session, now))
    {
      var b := BucketFor(session, now);
      assert b in buckets.Values;
      taken := b.Take(rps, now);
      ghost var served := Serve(rps, old(Contents()), Event(session, now));
      assert Contents()[session] == served[session];
      forall s | s in buckets && s != session
        ensures Contents()[s] == served[s]
      {
        assert s in old(buckets) && old(buckets)[s] == buckets[s] != b;
      }
      assert Contents() == served;
    }

    /** `now` is read under the lock, so it is never earlier than the last request served. */
    method Check(session: string, now: real) returns (v: Verdict)
      requires Valid()
      requires history == [] || history[|history| - 1].at <= now
      modifies this`buckets, this`history, buckets.Values
      ensures Valid() && history == old(history) + [Event(session, now)]
      ensures fresh(buckets.Values - old(buckets.Values))
      ensures v == if LastAffordable(rps, history) then Allowed else RateLimited
    {
      ghost var e := Event(session, now);
      ghost var served := Serve(rps, Contents(), e);
      ServeTracks(rps, Contents(), history, e);
      var taken := Take(session, now);
      history := history + [e];
      assert Contents() == served && Tracks(rps, served, history);
      v := if taken then Allowed else RateLimited;
    }
  }
}
