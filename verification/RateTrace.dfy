/** Timed request traces, the counts of what was admitted in them, and the contract of `rateChecker`. */
module RateTrace {

  datatype Verdict = Allowed | RateLimited | BackendError

  /** One `check` call, in the order in which the checker served them. */
  datatype Event = Event(session: string, at: real)

  ghost predicate Sorted(ts: seq<real>) {
    forall i, j | 0 <= i <= j < |ts| :: ts[i] <= ts[j]
  }

  ghost predicate Chronological(tr: seq<Event>) {
    forall i, j | 0 <= i <= j < |tr| :: tr[i].at <= tr[j].at
  }

  lemma ChronologicalAppend(tr: seq<Event>, e: Event)
    requires Chronological(tr) && (tr != [] ==> tr[|tr| - 1].at <= e.at)
    ensures Chronological(tr + [e])
  {
    assert forall i | 0 <= i < |tr| :: tr[i].at <= tr[|tr| - 1].at;
  }

  function Times(tr: seq<Event>, session: string): seq<real> {
    if tr == [] then []
    else
      var e := tr[|tr| - 1];
      Times(tr[..|tr| - 1], session) + if e.session == session then [e.at] else []
  }

  /** The verdicts that one session received. */
  function Project(tr: seq<Event>, ds: seq<bool>, session: string): seq<bool>
    requires |tr| == |ds|
  {
    if tr == [] then []
    else
      var n := |tr| - 1;
      Project(tr[..n], ds[..n], session) + if tr[n].session == session then [ds[n]] else []
  }

  lemma ProjectLength(tr: seq<Event>, ds: seq<bool>, session: string)
    requires |tr| == |ds|
    ensures |Project(tr, ds, session)| == |Times(tr, session)|
  {
  }

  lemma {:induction false} TimesSorted(tr: seq<Event>, session: string)
    requires Chronological(tr)
    ensures Sorted(Times(tr, session))
    ensures tr != [] ==> forall t | t in Times(tr, session) :: t <= tr[|tr| - 1].at
  {
    if tr != [] {
      var init := tr[..|tr| - 1];
      TimesSorted(init, session);
      assert init != [] ==> init[|init| - 1].at <= tr[|tr| - 1].at;
      var us := Times(init, session);
      assert forall i | 0 <= i < |us| :: us[i] in us;
    }
  }

  /** How many of requests lo..hi-1 were admitted. */
  function Count(ds: seq<bool>, lo: nat, hi: nat): nat
    requires lo <= hi <= |ds|
    decreases hi
  {
    if lo == hi then 0 else Count(ds, lo, hi - 1) + if ds[hi - 1] then 1 else 0
  }

  lemma {:induction false} CountSplit(ds: seq<bool>, lo: nat, mid: nat, hi: nat)
    requires lo <= mid <= hi <= |ds|
    ensures Count(ds, lo, hi) == Count(ds, lo, mid) + Count(ds, mid, hi)
    decreases hi
  {
    if mid < hi {
      CountSplit(ds, lo, mid, hi - 1);
    }
  }

  lemma {:induction false} CountPrefix(ds: seq<bool>, es: seq<bool>, lo: nat, hi: nat)
    requires lo <= hi <= |ds| && hi <= |es| && ds[..hi] == es[..hi]
    ensures Count(ds, lo, hi) == Count(es, lo, hi)
    decreases hi
  {
    if lo < hi {
      assert ds[hi - 1] == ds[..hi][hi - 1] == es[hi - 1];
      assert ds[..hi - 1] == ds[..hi][..hi - 1] == es[..hi - 1];
      CountPrefix(ds, es, lo, hi - 1);
    }
  }

  /** How many requests with a time in the closed interval from..from+len were admitted. */
  function InWindow(ts: seq<real>, ds: seq<bool>, from: real, len: real): nat
    requires |ts| == |ds|
  {
    if ts == [] then 0
    else
      var n := |ts| - 1;
      InWindow(ts[..n], ds[..n], from, len) + if ds[n] && from <= ts[n] <= from + len then 1 else 0
  }

  /** The same count for one session of an interleaved trace. */
  function SessionInWindow(tr: seq<Event>, ds: seq<bool>, session: string, from: real, len: real): nat
    requires |tr| == |ds|
  {
    if tr == [] then 0
    else
      var n := |tr| - 1;
      SessionInWindow(tr[..n], ds[..n], session, from, len)
        + if tr[n].session == session && ds[n] && from <= tr[n].at <= from + len then 1 else 0
  }

  lemma SessionWindowStep(tr: seq<Event>, ds: seq<bool>, e: Event, d: bool, session: string, from: real, len: real)
    requires |tr| == |ds|
    ensures SessionInWindow(tr + [e], ds + [d], session, from, len) == SessionInWindow(tr, ds, session, from, len)
      + if e.session == session && d && from <= e.at <= from + len then 1 else 0
  {
    assert (tr + [e])[..|tr|] == tr && (ds + [d])[..|ds|] == ds;
  }

  lemma LastProjected(tr: seq<Event>, ds: seq<bool>, session: string)
    requires |tr| == |ds| && tr != []
    ensures var n := |tr| - 1; var mine := tr[n].session == session;
      && Times(tr, session) == (if mine then Times(tr[..n], session) + [tr[n].at] else Times(tr[..n], session))
      && Project(tr, ds, session)
         == (if mine then Project(tr[..n], ds[..n], session) + [ds[n]] else Project(tr[..n], ds[..n], session))
  {
  }

  lemma WindowStep(ts: seq<real>, ds: seq<bool>, t: real, d: bool, from: real, len: real)
    requires |ts| == |ds|
    ensures InWindow(ts + [t], ds + [d], from, len)
         == InWindow(ts, ds, from, len) + if d && from <= t <= from + len then 1 else 0
  {
    assert (ts + [t])[..|ts|] == ts && (ds + [d])[..|ds|] == ds;
  }

  lemma {:induction false} SessionWindow(tr: seq<Event>, ds: seq<bool>, session: string, from: real, len: real)
    requires |tr| == |ds|
    ensures |Project(tr, ds, session)| == |Times(tr, session)|
    ensures SessionInWindow(tr, ds, session, from, len)
         == InWindow(Times(tr, session), Project(tr, ds, session), from, len)
  {
    ProjectLength(tr, ds, session);
    if tr != [] {
      var n := |tr| - 1;
      ProjectLength(tr[..n], ds[..n], session);
      SessionWindow(tr[..n], ds[..n], session, from, len);
      LastProjected(tr, ds, session);
      if tr[n].session == session {
        WindowStep(Times(tr[..n], session), Project(tr[..n], ds[..n], session), tr[n].at, ds[n], from, len);
      }
    }
  }

  /** In a sorted trace a window is a contiguous range of requests. */
  lemma {:induction false} WindowIsRange(ts: seq<real>, ds: seq<bool>, from: real, len: real) returns (lo: nat, hi: nat)
    requires |ts| == |ds| && Sorted(ts) && len >= 0.0
    ensures lo <= hi <= |ts| && InWindow(ts, ds, from, len) == Count(ds, lo, hi)
    ensures forall k | lo <= k < hi :: from <= ts[k] <= from + len
    ensures lo < hi ==> from <= ts[lo]
    ensures forall k | 0 <= k < lo :: ts[k] < from
    ensures hi == |ts| || (lo <= hi && ts[hi] > from + len)
  {
    if ts == [] {
      lo, hi := 0, 0;
    } else {
      var n := |ts| - 1;
      lo, hi := WindowIsRange(ts[..n], ds[..n], from, len);
      CountPrefix(ds[..n], ds, lo, hi);
      assert forall k | 0 <= k < n :: ts[..n][k] == ts[k] <= ts[n];
      if ts[n] < from {
        assert lo == hi;
        lo, hi := |ts|, |ts|;
      } else if ts[n] <= from + len {
        hi := |ts|;
      }
    }
  }

  /** What every rate checker owes its callers: twice the rate in any closed window of one second. */
  ghost predicate MeetsInterface(rps: int, tr: seq<Event>, ds: seq<bool>)
    requires |tr| == |ds|
  {
    forall session, from :: SessionInWindow(tr, ds, session, from, 1.0) <= 2 * rps
  }
}
