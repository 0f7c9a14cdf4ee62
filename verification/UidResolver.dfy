/** The resolver that remembers the Odoo uid of one server instance, under concurrent requests. */
module UidResolver {
  import opened Wrappers

  /** A read resolves to fill the cache, a write to invalidate it. */
  datatype Purpose = Fill | Invalidate

  /** A request inside `resolve` or past it; `late` marks one that began after the instance's first fill. */
  datatype Phase =
    | Asking(purpose: Purpose, late: bool)
    | Told(purpose: Purpose, late: bool, told: int)
    | Resolved(purpose: Purpose, uid: int)

  /** `answers` lists what successful resolves returned; `skipped` the late marks of invalidations
      that were skipped for lack of a uid. */
  datatype State = State(
    done: bool, uid: int, phases: map<nat, Phase>, filled: bool, answers: seq<int>, skipped: seq<bool>)

  /** `told` is the uid that ServerInfo reports, which is 0 when Odoo's answer has none; None when it fails. */
  datatype Action =
    | Begin(id: nat, purpose: Purpose)
    | Reply(id: nat, told: Option<int>)
    | Publish(id: nat)
    | Finish(id: nat)

  const START := State(false, 0, map[], false, [], [])

  function Next(s: State, a: Action): State {
    match a
    case Begin(id, purpose) =>
      if id in s.phases then s
      else if s.done then s.(phases := s.phases[id := Resolved(purpose, s.uid)], answers := s.answers + [s.uid])
      else s.(phases := s.phases[id := Asking(purpose, s.filled)])
    case Reply(id, told) =>
      if id !in s.phases || !s.phases[id].Asking? then s
      else
        var p := s.phases[id];
        if told.Some? then s.(phases := s.phases[id := Told(p.purpose, p.late, told.value)])
        else s.(phases := s.phases - {id},
                skipped := if p.purpose.Invalidate? then s.skipped + [p.late] else s.skipped)
    case Publish(id) =>
      if id !in s.phases || !s.phases[id].Told? then s
      else
        var p := s.phases[id];
        s.(uid := p.told, done := true, phases := s.phases[id := Resolved(p.purpose, p.told)],
           answers := s.answers + [p.told])
    case Finish(id) =>
      if id !in s.phases || !s.phases[id].Resolved? then s
      else s.(phases := s.phases - {id}, filled := s.filled || s.phases[id].purpose.Fill?)
  }

  function After(actions: seq<Action>): State {
    if actions == [] then START else Next(After(actions[..|actions| - 1]), actions[|actions| - 1])
  }

  /** The shared fields; each method is one critical section of `resolve`, and a step of the system. */
  class Resolver {
    var uid: int
    var done: bool

    ghost predicate Holds(s: State)
      reads this
    {
      done == s.done && uid == s.uid
    }

    constructor ()
      ensures Holds(START)
    {
      uid, done := 0, false;
    }

    /** The first one: the uid, if it is known. */
    method Known(id: nat, purpose: Purpose, ghost s: State) returns (r: Option<int>)
      requires Holds(s) && id !in s.phases
      ensures Holds(Next(s, Begin(id, purpose)))
      ensures var p := Next(s, Begin(id, purpose)).phases[id];
        r == if p.Resolved? then Some(p.uid) else None
    {
      if done {
        return Some(uid);
      }
      return None;
    }

    /** The second one: what ServerInfo told this request is remembered, and returned. */
    method Learn(id: nat, told: int, ghost s: State) returns (r: int)
      requires Holds(s) && id in s.phases && s.phases[id].Told? && s.phases[id].told == told
      modifies this
      ensures Holds(Next(s, Publish(id)))
      ensures Next(s, Publish(id)).phases[id] == Resolved(s.phases[id].purpose, r)
    {
      uid := told;
      done := true;
      return told;
    }
  }

  /** The uids that ServerInfo has reported. */
  function Reported(actions: seq<Action>): set<int> {
    set a | a in actions && a.Reply? && a.told.Some? :: a.told.value
  }

  ghost predicate PhaseOk(told: set<int>, s: State, p: Phase) {
    match p
    case Asking(_, late) => !late
    case Told(_, late, uid) => !late && uid in told
    case Resolved(_, uid) => uid in told && s.done
  }

  ghost predicate Inv(told: set<int>, s: State) {
    && (s.done ==> s.uid in told)
    && (s.filled ==> s.done)
    && (forall id | id in s.phases :: PhaseOk(told, s, s.phases[id]))
    && (forall u | u in s.answers :: u in told)
    && (forall late | late in s.skipped :: !late)
  }

  lemma StepKeepsInv(told: set<int>, s: State, a: Action)
    requires Inv(told, s)
    ensures Inv(told + Reported([a]), Next(s, a))
  {
    assert a in [a];
  }

  lemma {:induction false} InvHolds(actions: seq<Action>)
    ensures Inv(Reported(actions), After(actions))
  {
    if actions != [] {
      var init, a := actions[..|actions| - 1], actions[|actions| - 1];
      InvHolds(init);
      StepKeepsInv(Reported(init), After(init), a);
      assert actions == init + [a];
      assert Reported(actions) == Reported(init) + Reported([a]);
    }
  }

  lemma {:induction false} DoneStays(actions: seq<Action>, n: nat)
    requires n <= |actions| && After(actions[..n]).done
    ensures After(actions).done
  {
    if n < |actions| {
      var init := actions[..|actions| - 1];
      assert init[..n] == actions[..n];
      DoneStays(init, n);
    } else {
      assert actions[..n] == actions;
    }
  }

  /** `done` never reverts, every successful resolve returns a uid that ServerInfo reported, and an invalidation that
      begins after the instance has filled an entry is never skipped. */
  lemma ResolverIsStable(actions: seq<Action>, n: nat)
    requires n <= |actions|
    ensures After(actions[..n]).done ==> After(actions).done
    ensures forall u | u in After(actions).answers :: u in Reported(actions)
    ensures true !in After(actions).skipped
  {
    InvHolds(actions);
    if After(actions[..n]).done {
      DoneStays(actions, n);
    }
  }

  /** The uids that second critical sections have remembered. */
  function Published(actions: seq<Action>): set<int> {
    if actions == [] then {}
    else
      var init, a := actions[..|actions| - 1], actions[|actions| - 1];
      var phases := After(init).phases;
      Published(init) + if a.Publish? && a.id in phases && phases[a.id].Told? then {phases[a.id].told} else {}
  }

  /** Successful resolves return exactly the published uids; so they all agree exactly when those do. */
  lemma {:induction false} AnswersArePublished(actions: seq<Action>)
    ensures forall u :: u in After(actions).answers <==> u in Published(actions)
    ensures After(actions).done ==> After(actions).uid in Published(actions)
  {
    if actions != [] {
      AnswersArePublished(actions[..|actions| - 1]);
    }
  }

  /** When ServerInfo reports one uid throughout, every successful resolve returns it. */
  lemma OneUid(actions: seq<Action>, uid: int)
    requires Reported(actions) <= {uid}
    ensures forall u | u in After(actions).answers :: u == uid
  {
    InvHolds(actions);
  }
}
