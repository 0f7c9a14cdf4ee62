/** The load on Odoo when Valkey is used: the cache middleware asks Odoo for the uid on its own account, before a read's
    handler checks the rate and after a write's handler succeeded. */
module CachedLoad {
  import opened Wrappers
  import opened RateTrace
  import opened Tools
  import UidResolver
  import ValkeyLimiter

  datatype Stage = Resolving | Handling | Invalidating

  /** A tool call under way; `asked` once its ServerInfo request has been sent. */
  datatype Work = Work(session: string, call: ToolCall, stage: Stage, asked: bool)

  /** A call reached Odoo: from the resolver, when it asked, or from its handler, dated by the rate check before it. */
  datatype Contact = Contact(id: nat, session: string, at: real, resolving: bool)

  datatype State = State(
    resolver: UidResolver.State, open: map<nat, Work>, checks: seq<Event>, contacts: seq<Contact>)

  datatype Action =
    | Arrive(id: nat, session: string, call: ToolCall)
    | Ask(id: nat)                        // ServerInfo is sent, after the lock of the first section was released
    | Answer(id: nat, told: Option<int>)  // the uid that ServerInfo tells the resolver, or None when it fails
    | Publish(id: nat)                    // the resolver's second critical section
    | Proceed(id: nat, hit: bool)         // with a uid: the lookup of a read, the invalidation of a write
    | Handle(id: nat, reply: Reply)

  datatype Step = Step(at: real, action: Action)

  datatype Setup = Setup(rps: int, policy: Policy)

  predicate ReadTool(c: ToolCall) {
    c.SearchRead? || c.Read? || c.FieldsGet? || c.ListModels? || c.ServerInfo?
  }

  function Close(s: State, id: nat): State {
    s.(open := s.open - {id})
  }

  /** The first critical section: the call goes on to ask for the uid unless it is known. */
  function Resolve(s: State, id: nat, w: Work): State {
    var purpose := if w.stage.Invalidating? then UidResolver.Invalidate else UidResolver.Fill;
    s.(resolver := UidResolver.Next(s.resolver, UidResolver.Begin(id, purpose)),
       open := s.open[id := w.(asked := w.asked && id in s.resolver.phases)])
  }

  function Allows(c: Setup, checks: seq<Event>, w: Work): bool {
    var ds := ValkeyLimiter.Verdicts(c.rps, checks);
    ConsultsRate(w.call) && ds != [] && ds[|ds| - 1]
  }

  /** The handler runs: its rate check, and its requests. */
  function RunHandler(c: Setup, s: State, id: nat, w: Work, at: real, reply: Reply): State {
    var checks := s.checks + ChecksOf(Invocation(w.session, at, w.call, reply));
    var sent := Sends(c.policy, Allows(c, checks, w), w.call, reply);
    s.(checks := checks, contacts := s.contacts + if sent == [] then [] else [Contact(id, w.session, at, false)])
  }

  function Succeeds(c: Setup, s: State, w: Work, reply: Reply): bool {
    !Outcome(c.policy, Allows(c, s.checks, w), w.call, reply).ToolError?
  }

  /** A successful read fills the cache, and a successful write goes on to the invalidation. */
  function AfterHandler(c: Setup, s: State, id: nat, w: Work, reply: Reply): State {
    if !Succeeds(c, s, w, reply) then Close(s, id)
    else if ReadTool(w.call) then
      Close(s.(resolver := UidResolver.Next(s.resolver, UidResolver.Finish(id))), id)
    else Resolve(s, id, w.(stage := Invalidating))
  }

  /** The request found no uid in the first critical section, and has not asked yet. */
  predicate Pending(s: State, id: nat) {
    id in s.open && !s.open[id].asked && id in s.resolver.phases && s.resolver.phases[id].Asking?
  }

  predicate HasUid(s: State, id: nat) {
    id in s.resolver.phases && s.resolver.phases[id].Resolved?
  }

  /** One step; an action that is not possible leaves the state as it is. */
  function Next(c: Setup, s: State, step: Step): State {
    var id := step.action.id;
    match step.action
    case Arrive(_, session, call) =>
      if id in s.open || id in s.resolver.phases then s
      else if ReadTool(call) then Resolve(s, id, Work(session, call, Resolving, false))
      else s.(open := s.open[id := Work(session, call, Handling, false)])
    case Ask(_) =>
      if !Pending(s, id) then s
      else
        var w := s.open[id];
        s.(open := s.open[id := w.(asked := true)], contacts := s.contacts + [Contact(id, w.session, step.at, true)])
    case Answer(_, told) =>
      if id !in s.open || id !in s.resolver.phases || !s.resolver.phases[id].Asking? || !s.open[id].asked then s
      else
        var t := s.(resolver := UidResolver.Next(s.resolver, UidResolver.Reply(id, told)));
        if told.Some? then t
        else if s.open[id].stage.Resolving? then t.(open := s.open[id := s.open[id].(stage := Handling)])
        else Close(t, id)
    case Publish(_) => s.(resolver := UidResolver.Next(s.resolver, UidResolver.Publish(id)))
    case Proceed(_, hit) =>
      if id !in s.open || !HasUid(s, id) || s.open[id].stage.Handling? then s
      else if s.open[id].stage.Invalidating? || hit then Close(s, id)
      else s.(open := s.open[id := s.open[id].(stage := Handling)])
    case Handle(_, reply) =>
      if id !in s.open || !s.open[id].stage.Handling? then s
      else AfterHandler(c, RunHandler(c, s, id, s.open[id], step.at, reply), id, s.open[id], reply)
  }

  const START := State(UidResolver.START, map[], [], [])

  function Play(c: Setup, s: State, run: seq<Step>): State
    decreases |run|
  {
    if run == [] then s else Next(c, Play(c, s, run[..|run| - 1]), run[|run| - 1])
  }

  function After(c: Setup, run: seq<Step>): State {
    Play(c, START, run)
  }

  ghost predicate InTimeOrder(run: seq<Step>) {
    forall i, j | 0 <= i <= j < |run| :: run[i].at <= run[j].at
  }

  predicate Counts(contact: Contact, session: string, from: real, len: real) {
    contact.session == session && from <= contact.at <= from + len
  }

  /** How often a session reached Odoo in the closed window; `resolving` selects what the resolver asked. */
  function InWindow(cs: seq<Contact>, resolving: bool, session: string, from: real, len: real): nat {
    if cs == [] then 0
    else
      var last := cs[|cs| - 1];
      InWindow(cs[..|cs| - 1], resolving, session, from, len)
        + if last.resolving == resolving && Counts(last, session, from, len) then 1 else 0
  }

  function Reaching(cs: seq<Contact>, session: string, from: real, len: real): nat {
    InWindow(cs, true, session, from, len) + InWindow(cs, false, session, from, len)
  }

  lemma {:induction false} WindowAdds(
      cs: seq<Contact>, more: seq<Contact>, resolving: bool, session: string, from: real, len: real)
    ensures InWindow(cs + more, resolving, session, from, len)
         == InWindow(cs, resolving, session, from, len) + InWindow(more, resolving, session, from, len)
    decreases |more|
  {
    if more == [] {
      assert cs + more == cs;
    } else {
      assert (cs + more)[..|cs + more| - 1] == cs + more[..|more| - 1];
      WindowAdds(cs, more[..|more| - 1], resolving, session, from, len);
    }
  }

  // Only admitted calls reach Odoo from their handlers.

  ghost predicate Balanced(c: Setup, s: State, session: string, from: real, len: real) {
    InWindow(s.contacts, false, session, from, len)
      <= SessionInWindow(s.checks, ValkeyLimiter.Verdicts(c.rps, s.checks), session, from, len)
  }

  lemma OneMoreVerdict(rps: int, checks: seq<Event>, e: Event)
    ensures ValkeyLimiter.Verdicts(rps, checks + [e])[..|checks|] == ValkeyLimiter.Verdicts(rps, checks)
  {
    assert (checks + [e])[..|checks|] == checks;
  }

  lemma HandlerBalanced(
      c: Setup, s: State, id: nat, w: Work, at: real, reply: Reply, session: string, from: real, len: real)
    requires Balanced(c, s, session, from, len)
    ensures Balanced(c, RunHandler(c, s, id, w, at, reply), session, from, len)
  {
    var t := RunHandler(c, s, id, w, at, reply);
    if ConsultsRate(w.call) {
      var e, n := Event(w.session, at), |s.checks|;
      var ds := ValkeyLimiter.Verdicts(c.rps, t.checks);
      OneMoreVerdict(c.rps, s.checks, e);
      assert ds == ds[..n] + [ds[n]];
      SessionWindowStep(s.checks, ds[..n], e, ds[n], session, from, len);
      WindowAdds(s.contacts, t.contacts[|s.contacts|..], false, session, from, len);
    } else {
      assert t.checks == s.checks && t.contacts == s.contacts;
    }
  }

  /** Only the handlers and the asking contact Odoo, and only the handlers check the rate. */
  lemma OtherSteps(c: Setup, s: State, step: Step)
    requires !step.action.Handle? && !step.action.Ask?
    ensures Next(c, s, step).contacts == s.contacts && Next(c, s, step).checks == s.checks
  {
  }

  lemma AskStep(c: Setup, s: State, step: Step)
    requires step.action.Ask?
    ensures var t, id := Next(c, s, step), step.action.id;
      && t.checks == s.checks && t.resolver == s.resolver
      && t.contacts == s.contacts + if Pending(s, id) then [Contact(id, s.open[id].session, step.at, true)] else []
  {
  }

  lemma HandleStep(c: Setup, s: State, step: Step)
    requires step.action.Handle?
    ensures var t, id := Next(c, s, step), step.action.id;
      if id in s.open && s.open[id].stage.Handling? then
        var u := RunHandler(c, s, id, s.open[id], step.at, step.action.reply);
        t.contacts == u.contacts && t.checks == u.checks
      else t == s
  {
  }

  lemma NextBalanced(c: Setup, s: State, step: Step, session: string, from: real, len: real)
    requires Balanced(c, s, session, from, len)
    ensures Balanced(c, Next(c, s, step), session, from, len)
  {
    var t, id := Next(c, s, step), step.action.id;
    if step.action.Handle? {
      HandleStep(c, s, step);
      if id in s.open && s.open[id].stage.Handling? {
        HandlerBalanced(c, s, id, s.open[id], step.at, step.action.reply, session, from, len);
      }
    } else if step.action.Ask? {
      AskStep(c, s, step);
      WindowAdds(s.contacts, t.contacts[|s.contacts|..], false, session, from, len);
      assert t.contacts == s.contacts + t.contacts[|s.contacts|..];
    } else {
      OtherSteps(c, s, step);
    }
  }

  lemma NextChecks(c: Setup, s: State, step: Step)
    ensures var t := Next(c, s, step);
      t.checks == s.checks || exists session: string :: t.checks == s.checks + [Event(session, step.at)]
  {
    if step.action.Handle? {
      HandleStep(c, s, step);
      if step.action.id in s.open {
        var w := s.open[step.action.id];
        assert ChecksOf(Invocation(w.session, step.at, w.call, step.action.reply)) in {[], [Event(w.session, step.at)]};
        assert s.checks + [] == s.checks;
      }
    } else if step.action.Ask? {
      AskStep(c, s, step);
    } else {
      OtherSteps(c, s, step);
    }
  }

  lemma {:induction false} ChecksInOrder(c: Setup, run: seq<Step>)
    requires InTimeOrder(run)
    ensures Chronological(After(c, run).checks)
    ensures forall e | e in After(c, run).checks :: run != [] && e.at <= run[|run| - 1].at
  {
    if run != [] {
      var init := run[..|run| - 1];
      ChecksInOrder(c, init);
      NextChecks(c, After(c, init), run[|run| - 1]);
      assert init != [] ==> init[|init| - 1].at <= run[|run| - 1].at;
      var checks := After(c, init).checks;
      assert forall i | 0 <= i < |checks| :: checks[i] in checks;
    }
  }

  lemma {:induction false} RunBalanced(c: Setup, run: seq<Step>, session: string, from: real, len: real)
    ensures Balanced(c, After(c, run), session, from, len)
    decreases |run|
  {
    if run != [] {
      RunBalanced(c, run[..|run| - 1], session, from, len);
      NextBalanced(c, After(c, run[..|run| - 1]), run[|run| - 1], session, from, len);
    }
  }

  /** In any closed window Odoo is reached at most rps * (ceil(len) + 1) times, plus the times the resolver asks. */
  lemma OdooLoadValkey(c: Setup, run: seq<Step>, session: string, from: real, len: real)
    requires c.rps >= 1 && InTimeOrder(run) && len >= 0.0
    ensures var cs := After(c, run).contacts;
      Reaching(cs, session, from, len)
        <= c.rps * (ValkeyLimiter.Ceil(len) + 1) + InWindow(cs, true, session, from, len)
  {
    RunBalanced(c, run, session, from, len);
    ChecksInOrder(c, run);
    ValkeyLimiter.ValkeyWindow(c.rps, After(c, run).checks, session, from, len);
  }

  lemma OneMoreStep(c: Setup, s: State, run: seq<Step>, step: Step)
    ensures Play(c, s, run + [step]) == Next(c, Play(c, s, run), step)
  {
    assert (run + [step])[..|run + [step]| - 1] == run;
  }

  lemma {:induction false} PlayOn(c: Setup, s: State, run: seq<Step>, later: seq<Step>)
    ensures Play(c, s, run + later) == Play(c, Play(c, s, run), later)
    decreases |later|
  {
    if later == [] {
      assert run + later == run;
    } else {
      var init, last := later[..|later| - 1], later[|later| - 1];
      PlayOn(c, s, run, init);
      OneMoreStep(c, s, run + init, last);
      assert run + later == run + init + [last];
    }
  }

  // How a call goes.

  /** A hit ends a read without a rate check and without a contact; a miss hands it to its handler. */
  lemma LookupGoesOn(c: Setup, s: State, id: nat, hit: bool, at: real)
    requires id in s.open && s.open[id].stage.Resolving? && HasUid(s, id)
    ensures var t := Next(c, s, Step(at, Proceed(id, hit)));
      && t.contacts == s.contacts && t.checks == s.checks && t.resolver == s.resolver
      && t.open == if hit then s.open - {id} else s.open[id := s.open[id].(stage := Handling)]
  {
  }

  /** When ServerInfo fails, a read goes on to its handler without the cache, and a write is left without invalidation. */
  lemma FailedAskGoesOn(c: Setup, s: State, id: nat, at: real)
    requires id in s.open && s.open[id].asked && id in s.resolver.phases && s.resolver.phases[id].Asking?
    requires !s.open[id].stage.Handling?
    ensures var t := Next(c, s, Step(at, Answer(id, None)));
      && t.contacts == s.contacts && t.checks == s.checks && id !in t.resolver.phases
      && t.open == if s.open[id].stage.Resolving? then s.open[id := s.open[id].(stage := Handling)] else s.open - {id}
  {
  }

  /** Reads resolve before their handlers, and other calls do not: create, write, unlink, call and message_post. */
  lemma ArrivalGoesOn(c: Setup, s: State, id: nat, session: string, call: ToolCall, at: real)
    requires id !in s.open && id !in s.resolver.phases
    ensures var t := Next(c, s, Step(at, Arrive(id, session, call)));
      && t.contacts == s.contacts && t.checks == s.checks && id in t.open && t.open[id].session == session
      && (call.Create? || call.Write? || call.Unlink? || call.Call? || call.MessagePost? ==>
            t.open[id].stage == Handling && t.resolver == s.resolver)
      && (call.SearchRead? || call.Read? || call.FieldsGet? || call.ListModels? || call.ServerInfo? ==>
            t.open[id].stage == Resolving && if s.resolver.done then HasUid(t, id) else Pending(t, id))
  {
  }

  predicate IsWrite(call: ToolCall) {
    call.Create? || call.Write? || call.Unlink? || call.Call? || call.MessagePost?
  }

  lemma ResolvesToInvalidate(c: Setup, s: State, id: nat, w: Work, reply: Reply)
    requires !w.asked
    ensures var t := AfterHandler(c, s, id, w, reply);
      if Succeeds(c, s, w, reply) && IsWrite(w.call) then t == Resolve(s, id, w.(stage := Invalidating))
      else t.open == s.open - {id}
  {
  }

  lemma ResolveWaits(s: State, id: nat, w: Work)
    requires !w.asked
    ensures Resolve(s, id, w).open == s.open[id := w]
    ensures id !in s.resolver.phases ==>
      if s.resolver.done then HasUid(Resolve(s, id, w), id) else Pending(Resolve(s, id, w), id)
  {
  }

  /** After its handler a successful write resolves for the invalidation; a failed one is over, and so is any read. */
  lemma HandledGoesOn(c: Setup, s: State, id: nat, at: real, reply: Reply)
    requires id in s.open && s.open[id].stage.Handling? && !s.open[id].asked
    ensures var w := s.open[id]; var t := Next(c, s, Step(at, Handle(id, reply)));
      if Succeeds(c, RunHandler(c, s, id, w, at, reply), w, reply) && IsWrite(w.call)
      then
        && t.open == s.open[id := w.(stage := Invalidating)]
        && (id !in s.resolver.phases ==> if s.resolver.done then HasUid(t, id) else Pending(t, id))
      else t.open == s.open - {id}
  {
    var w := s.open[id];
    var u := RunHandler(c, s, id, w, at, reply);
    assert u.open == s.open && u.resolver == s.resolver;
    ResolvesToInvalidate(c, u, id, w, reply);
    ResolveWaits(u, id, w.(stage := Invalidating));
  }

  // The resolver asks only for requests that found the uid unknown.

  /** The uid is known, and no request that found it unknown is yet to ask. */
  ghost predicate Settled(s: State) {
    s.resolver.done && forall id :: !Pending(s, id)
  }

  lemma ResolveSettles(s: State, id: nat, w: Work, other: nat)
    requires s.resolver.done && (id in s.open ==> w.asked == s.open[id].asked)
    ensures Resolve(s, id, w).resolver.done
    ensures Pending(Resolve(s, id, w), other) ==>
      Pending(s, other) || (id == other && id !in s.open && id in s.resolver.phases)
  {
  }

  lemma AfterHandlerSettles(c: Setup, s: State, id: nat, reply: Reply, other: nat)
    requires s.resolver.done && id in s.open
    ensures var t := AfterHandler(c, s, id, s.open[id], reply);
      t.resolver.done && (Pending(t, other) ==> Pending(s, other))
  {
    ResolveSettles(s, id, s.open[id].(stage := Invalidating), other);
  }

  /** The uid stays known; and once it is, no more requests are to ask. */
  lemma NextSettles(c: Setup, s: State, step: Step, id: nat)
    requires s.resolver.done
    ensures Next(c, s, step).resolver.done
    ensures Pending(Next(c, s, step), id) ==> Pending(s, id)
  {
    var actor := step.action.id;
    if step.action.Handle? {
      if actor in s.open && s.open[actor].stage.Handling? {
        var u := RunHandler(c, s, actor, s.open[actor], step.at, step.action.reply);
        AfterHandlerSettles(c, u, actor, step.action.reply, id);
      }
    } else if step.action.Arrive? && actor !in s.open && actor !in s.resolver.phases {
      ResolveSettles(s, actor, Work(step.action.session, step.action.call, Resolving, false), id);
    }
  }

  /** The contacts grow, by contacts of handlers and of pending requests. */
  ghost predicate Extends(s: State, t: State) {
    && |s.contacts| <= |t.contacts| && t.contacts[..|s.contacts|] == s.contacts
    && forall i | |s.contacts| <= i < |t.contacts| && t.contacts[i].resolving :: Pending(s, t.contacts[i].id)
  }

  lemma NextExtends(c: Setup, s: State, step: Step)
    ensures Extends(s, Next(c, s, step))
  {
    if step.action.Handle? {
      HandleStep(c, s, step);
    } else if step.action.Ask? {
      AskStep(c, s, step);
    } else {
      OtherSteps(c, s, step);
    }
  }

  lemma NextSettled(c: Setup, s: State, step: Step)
    requires Settled(s)
    ensures Settled(Next(c, s, step))
  {
    forall id
      ensures !Pending(Next(c, s, step), id)
    {
      NextSettles(c, s, step, id);
    }
    NextSettles(c, s, step, 0);
  }

  /** Handlers alone reach Odoo from s to t. */
  ghost predicate OnlyHandlers(s: State, t: State) {
    s.contacts <= t.contacts && forall i | |s.contacts| <= i < |t.contacts| :: !t.contacts[i].resolving
  }

  lemma NextOnlyHandlers(c: Setup, s: State, t: State, step: Step)
    requires Settled(t) && OnlyHandlers(s, t)
    ensures OnlyHandlers(s, Next(c, t, step))
  {
    NextExtends(c, t, step);
  }

  /** From a settled state on, only handlers reach Odoo. */
  lemma {:induction false} SettledStays(c: Setup, s: State, later: seq<Step>)
    requires Settled(s)
    ensures Settled(Play(c, s, later)) && OnlyHandlers(s, Play(c, s, later))
    decreases |later|
  {
    if later != [] {
      var init, last := later[..|later| - 1], later[|later| - 1];
      SettledStays(c, s, init);
      NextSettled(c, Play(c, s, init), last);
      NextOnlyHandlers(c, s, Play(c, s, init), last);
    }
  }

  lemma PendingComes(c: Setup, s: State, step: Step, id: nat)
    requires Pending(Next(c, s, step), id) && s.resolver.done
    ensures Pending(s, id)
  {
    NextSettles(c, s, step, id);
  }

  /** A pending request passed the first critical section in a step before which the uid was unknown. */
  ghost predicate Began(c: Setup, before: seq<Step>, step: Step, id: nat) {
    var s := After(c, before);
    !s.resolver.done && !Pending(s, id) && Pending(Next(c, s, step), id)
  }

  lemma {:induction false} PendingBegan(c: Setup, run: seq<Step>, id: nat) returns (m: nat)
    requires Pending(After(c, run), id)
    ensures m < |run| && Began(c, run[..m], run[m], id)
    decreases |run|
  {
    m := |run| - 1;
    var init := run[..m];
    if Pending(After(c, init), id) {
      m := PendingBegan(c, init, id);
      assert init[..m] == run[..m] && init[m] == run[m];
    } else if After(c, init).resolver.done {
      PendingComes(c, After(c, init), run[m], id);
    }
  }

  /** Contact i is the resolver's, and was made by this step for a pending request. */
  ghost predicate AskedAt(c: Setup, before: seq<Step>, step: Step, i: nat) {
    var s := After(c, before);
    var cs := Next(c, s, step).contacts;
    |s.contacts| <= i < |cs| && cs[i].resolving && Pending(s, cs[i].id)
  }

  lemma LastContacts(c: Setup, init: seq<Step>, step: Step, i: nat)
    requires i < |After(c, init + [step]).contacts| && After(c, init + [step]).contacts[i].resolving
    ensures AskedAt(c, init, step, i)
         || (i < |After(c, init).contacts| && After(c, init).contacts[i] == After(c, init + [step]).contacts[i])
  {
    OneMoreStep(c, START, init, step);
    var s := After(c, init);
    NextExtends(c, s, step);
    assert i < |s.contacts| ==> Next(c, s, step).contacts[..|s.contacts|][i] == s.contacts[i];
  }

  lemma {:induction false} ContactWasAsked(c: Setup, run: seq<Step>, i: nat) returns (n: nat)
    requires i < |After(c, run).contacts| && After(c, run).contacts[i].resolving
    ensures n < |run| && AskedAt(c, run[..n], run[n], i)
    ensures Next(c, After(c, run[..n]), run[n]).contacts[i] == After(c, run).contacts[i]
    decreases |run|
  {
    n := |run| - 1;
    var init := run[..n];
    assert run == init + [run[n]];
    LastContacts(c, init, run[n], i);
    if AskedAt(c, init, run[n], i) {
      OneMoreStep(c, START, init, run[n]);
    } else {
      n := ContactWasAsked(c, init, i);
      assert init[..n] == run[..n] && init[n] == run[n];
    }
  }

  /** Every contact of the resolver belongs to a request that passed the first critical section, in an earlier step,
      while the uid was unknown. */
  lemma AskedUnresolved(c: Setup, run: seq<Step>, i: nat) returns (m: nat, n: nat)
    requires i < |After(c, run).contacts| && After(c, run).contacts[i].resolving
    ensures m < n < |run| && AskedAt(c, run[..n], run[n], i)
    ensures Began(c, run[..m], run[m], After(c, run).contacts[i].id)
  {
    n := ContactWasAsked(c, run, i);
    m := PendingBegan(c, run[..n], After(c, run).contacts[i].id);
    assert run[..n][..m] == run[..m] && run[..n][m] == run[m];
  }

  lemma {:induction false} NoneResolving(cs: seq<Contact>, session: string, from: real, len: real)
    requires forall i | 0 <= i < |cs| :: !cs[i].resolving
    ensures InWindow(cs, true, session, from, len) == 0
  {
    if cs != [] {
      NoneResolving(cs[..|cs| - 1], session, from, len);
    }
  }

  /** What a run adds to the contacts of a part of it. */
  function NewContacts(c: Setup, run: seq<Step>, later: seq<Step>): seq<Contact> {
    var before, all := |After(c, run).contacts|, Play(c, After(c, run), later).contacts;
    if before <= |all| then all[before..] else []
  }

  /** Once the instance is settled, the limiter alone bounds what reaches Odoo from then on. */
  lemma OnceSettled(c: Setup, run: seq<Step>, later: seq<Step>, session: string, from: real, len: real)
    requires c.rps >= 1 && InTimeOrder(run + later) && len >= 0.0 && Settled(After(c, run))
    ensures Reaching(NewContacts(c, run, later), session, from, len) <= c.rps * (ValkeyLimiter.Ceil(len) + 1)
  {
    var before, cs := After(c, run).contacts, Play(c, After(c, run), later).contacts;
    SettledStays(c, After(c, run), later);
    PlayOn(c, START, run, later);
    NoneResolving(cs[|before|..], session, from, len);
    assert cs == before + cs[|before|..];
    WindowAdds(before, cs[|before|..], false, session, from, len);
    RunBalanced(c, run + later, session, from, len);
    ChecksInOrder(c, run + later);
    ValkeyLimiter.ValkeyWindow(c.rps, After(c, run + later).checks, session, from, len);
  }

  /** From this run on the limiter's bound holds: for all that may follow, all sessions and all windows. */
  ghost predicate BoundHolds(c: Setup, run: seq<Step>) {
    forall later, session, from, len | InTimeOrder(run + later) && len >= 0.0 ::
      Reaching(NewContacts(c, run, later), session, from, len) <= c.rps * (ValkeyLimiter.Ceil(len) + 1)
  }

  lemma BoundAtInstant(c: Setup, run: seq<Step>, later: seq<Step>, session: string, at: real)
    requires BoundHolds(c, run) && InTimeOrder(run + later)
    ensures Reaching(NewContacts(c, run, later), session, at, 0.0) <= c.rps
  {
    assert ValkeyLimiter.Ceil(0.0) == 0;
  }

  // While the uid is unknown, the limiter bounds nothing.

  /** n reads of one session that arrive at one instant, with numbers from `first` on. */
  function Arrivals(session: string, call: ToolCall, at: real, first: nat, n: nat): seq<Step> {
    if n == 0 then []
    else Arrivals(session, call, at, first, n - 1) + [Step(at, Arrive(first + n - 1, session, call))]
  }

  function Asks(at: real, first: nat, n: nat): seq<Step> {
    if n == 0 then [] else Asks(at, first, n - 1) + [Step(at, Ask(first + n - 1))]
  }

  /** No request with a number from `first` on is known yet. */
  ghost predicate Unused(s: State, first: nat) {
    forall id | id in s.open.Keys || id in s.resolver.phases.Keys :: id < first
  }

  /** From s to t, n requests arrived and none asked. */
  ghost predicate Waiting(s: State, t: State, session: string, first: nat, n: nat) {
    && t.contacts == s.contacts && t.checks == s.checks && !t.resolver.done && Unused(t, first + n)
    && forall id | first <= id < first + n :: Pending(t, id) && t.open[id].session == session
  }

  lemma ArrivalWaits(
      c: Setup, s: State, t: State, session: string, call: ToolCall, at: real, first: nat, n: nat)
    requires ReadTool(call) && Waiting(s, t, session, first, n)
    ensures Waiting(s, Next(c, t, Step(at, Arrive(first + n, session, call))), session, first, n + 1)
  {
  }

  lemma {:induction false} ArrivalsWait(
      c: Setup, s: State, session: string, call: ToolCall, at: real, first: nat, n: nat)
    requires ReadTool(call) && Waiting(s, s, session, first, 0)
    ensures Waiting(s, Play(c, s, Arrivals(session, call, at, first, n)), session, first, n)
    decreases n
  {
    if n > 0 {
      var before := Arrivals(session, call, at, first, n - 1);
      ArrivalsWait(c, s, session, call, at, first, n - 1);
      ArrivalWaits(c, s, Play(c, s, before), session, call, at, first, n - 1);
      OneMoreStep(c, s, before, Step(at, Arrive(first + n - 1, session, call)));
    }
  }

  /** The resolver's contacts when n requests ask. */
  function Asked(session: string, at: real, first: nat, n: nat): seq<Contact> {
    seq(n, i requires 0 <= i < n => Contact(first + i, session, at, true))
  }

  /** From s to t, k of n waiting requests asked. */
  ghost predicate Asking(s: State, t: State, session: string, at: real, first: nat, k: nat, n: nat) {
    && t.contacts == s.contacts + Asked(session, at, first, k) && t.checks == s.checks
    && forall id | first + k <= id < first + n :: Pending(t, id) && t.open[id].session == session
  }

  lemma AskAsks(c: Setup, s: State, t: State, session: string, at: real, first: nat, k: nat, n: nat)
    requires k < n && Asking(s, t, session, at, first, k, n)
    ensures Asking(s, Next(c, t, Step(at, Ask(first + k))), session, at, first, k + 1, n)
  {
    assert Pending(t, first + k);
    AskStep(c, t, Step(at, Ask(first + k)));
    assert Asked(session, at, first, k + 1) == Asked(session, at, first, k) + [Contact(first + k, session, at, true)];
  }

  lemma {:induction false} AsksAsk(c: Setup, s: State, session: string, at: real, first: nat, k: nat, n: nat)
    requires k <= n && Asking(s, s, session, at, first, 0, n)
    ensures Asking(s, Play(c, s, Asks(at, first, k)), session, at, first, k, n)
    decreases k
  {
    if k > 0 {
      AsksAsk(c, s, session, at, first, k - 1, n);
      AskAsks(c, s, Play(c, s, Asks(at, first, k - 1)), session, at, first, k - 1, n);
      OneMoreStep(c, s, Asks(at, first, k - 1), Step(at, Ask(first + k - 1)));
    }
  }

  lemma {:induction false} AskedReach(session: string, at: real, first: nat, n: nat)
    ensures Reaching(Asked(session, at, first, n), session, at, 0.0) == n
  {
    if n > 0 {
      AskedReach(session, at, first, n - 1);
      assert Asked(session, at, first, n)[..n - 1] == Asked(session, at, first, n - 1);
    }
  }

  ghost predicate AllAt(steps: seq<Step>, at: real) {
    forall i | 0 <= i < |steps| :: steps[i].at == at
  }

  lemma {:induction false} AllAtOnce(session: string, call: ToolCall, at: real, first: nat, n: nat)
    ensures AllAt(Arrivals(session, call, at, first, n), at) && AllAt(Asks(at, first, n), at)
  {
    if n > 0 {
      AllAtOnce(session, call, at, first, n - 1);
    }
  }

  lemma OrderGoesOn(run: seq<Step>, later: seq<Step>, at: real)
    requires InTimeOrder(run) && AllAt(later, at) && (run != [] ==> run[|run| - 1].at <= at)
    ensures InTimeOrder(run + later)
  {
    assert forall i | 0 <= i < |run| :: run[i].at <= run[|run| - 1].at;
  }

  lemma ArriveAndAsk(c: Setup, s: State, session: string, call: ToolCall, at: real, first: nat, n: nat)
    requires ReadTool(call) && !s.resolver.done && Unused(s, first)
    ensures var t := Play(c, s, Arrivals(session, call, at, first, n) + Asks(at, first, n));
      t.contacts == s.contacts + Asked(session, at, first, n) && t.checks == s.checks
  {
    ArrivalsWait(c, s, session, call, at, first, n);
    var t := Play(c, s, Arrivals(session, call, at, first, n));
    assert Asking(t, t, session, at, first, 0, n);
    AsksAsk(c, t, session, at, first, n, n);
    PlayOn(c, s, Arrivals(session, call, at, first, n), Asks(at, first, n));
  }

  /** From any run in which the uid is not yet known, any number of different reads can reach Odoo at one instant. */
  lemma UnresolvedIsUnbounded(c: Setup, run: seq<Step>, session: string, call: ToolCall, n: nat)
    returns (later: seq<Step>, at: real)
    requires InTimeOrder(run) && !After(c, run).resolver.done && ReadTool(call)
    ensures InTimeOrder(run + later) && Play(c, After(c, run), later).checks == After(c, run).checks
    ensures Reaching(NewContacts(c, run, later), session, at, 0.0) == n == |NewContacts(c, run, later)|
    ensures var cs := NewContacts(c, run, later); forall i, j | 0 <= i < j < |cs| :: cs[i].id != cs[j].id
  {
    var s := After(c, run);
    at := if run == [] then 0.0 else run[|run| - 1].at;
    var first := FreshId(s.open.Keys + s.resolver.phases.Keys);
    later := Arrivals(session, call, at, first, n) + Asks(at, first, n);
    AllAtOnce(session, call, at, first, n);
    OrderGoesOn(run, later, at);
    ArriveAndAsk(c, s, session, call, at, first, n);
    AskedReach(session, at, first, n);
    assert NewContacts(c, run, later) == Asked(session, at, first, n);
  }

  /** In particular from the start of an instance on. */
  lemma FreshInstanceIsUnbounded(c: Setup, session: string, call: ToolCall, n: nat)
    returns (run: seq<Step>, at: real)
    requires ReadTool(call)
    ensures var s := After(c, run);
      && InTimeOrder(run) && s.checks == [] && |s.contacts| == n && Reaching(s.contacts, session, at, 0.0) == n
      && forall i, j | 0 <= i < j < |s.contacts| :: s.contacts[i].id != s.contacts[j].id
  {
    run, at := UnresolvedIsUnbounded(c, [], session, call, n);
    assert [] + run == run && NewContacts(c, [], run) == After(c, run).contacts;
  }

  // While a request is yet to ask, the limiter's bound can be exceeded by one.

  const LIST := ListModels("")
  const LISTED := Tools.Reply(true, [], false, [], 0, None)

  /** The checker lets a request through while fewer than rps came before it in its second. */
  lemma AllowsWhileFew(c: Setup, checks: seq<Event>, w: Work, at: real)
    requires Chronological(checks) && w.call == LIST
    ensures Allows(c, checks + [Event(w.session, at)], w)
      <==> ValkeyLimiter.Attempts(checks, w.session, at.Floor) < c.rps
  {
    ValkeyLimiter.OneMoreVerdict(c.rps, checks, Event(w.session, at));
  }

  /** What such a read adds to the state. */
  function WithRead(s: State, session: string, at: real, id: nat): State {
    s.(resolver := s.resolver.(filled := true, answers := s.resolver.answers + [s.resolver.uid]),
       checks := s.checks + [Event(session, at)], contacts := s.contacts + [Contact(id, session, at, false)])
  }

  lemma ReadHandled(c: Setup, s: State, session: string, at: real, id: nat)
    requires id in s.open && s.open[id] == Work(session, LIST, Handling, false)
    requires Chronological(s.checks) && ValkeyLimiter.Attempts(s.checks, session, at.Floor) < c.rps
    ensures var t := Next(c, s, Step(at, Handle(id, LISTED)));
      && t.checks == s.checks + [Event(session, at)] && t.contacts == s.contacts + [Contact(id, session, at, false)]
      && t.open == s.open - {id} && t.resolver == UidResolver.Next(s.resolver, UidResolver.Finish(id))
  {
    var w := s.open[id];
    AllowsWhileFew(c, s.checks, w, at);
    assert ChecksOf(Invocation(session, at, LIST, LISTED)) == [Event(session, at)];
    assert Passes(c.policy, true, LIST);
  }

  lemma ReadArrives(c: Setup, s: State, session: string, at: real, id: nat)
    requires s.resolver.done && Unused(s, id)
    ensures var t := Next(c, Next(c, s, Step(at, Arrive(id, session, LIST))), Step(at, Proceed(id, false)));
      && t.open == s.open[id := Work(session, LIST, Handling, false)] && t.checks == s.checks
      && t.contacts == s.contacts
      && t.resolver == s.resolver.(
           phases := s.resolver.phases[id := UidResolver.Resolved(UidResolver.Fill, s.resolver.uid)],
           answers := s.resolver.answers + [s.resolver.uid])
  {
  }

  lemma PlayThree(c: Setup, s: State, a: Step, b: Step, d: Step) returns (steps: seq<Step>)
    ensures Play(c, s, steps) == Next(c, Next(c, Next(c, s, a), b), d)
    ensures forall step | step in steps :: step == a || step == b || step == d
  {
    OneMoreStep(c, s, [], a);
    OneMoreStep(c, s, [] + [a], b);
    OneMoreStep(c, s, [] + [a] + [b], d);
    steps := [] + [a] + [b] + [d];
  }

  /** A read that misses the cache and is let through, in three steps at one instant. */
  lemma ReadRuns(c: Setup, s: State, session: string, at: real, id: nat) returns (steps: seq<Step>)
    requires s.resolver.done && Unused(s, id)
    requires Chronological(s.checks) && ValkeyLimiter.Attempts(s.checks, session, at.Floor) < c.rps
    ensures AllAt(steps, at) && Play(c, s, steps) == WithRead(s, session, at, id)
  {
    var a, b, d := Step(at, Arrive(id, session, LIST)), Step(at, Proceed(id, false)), Step(at, Handle(id, LISTED));
    var t := Next(c, Next(c, s, a), b);
    ReadArrives(c, s, session, at, id);
    ReadHandled(c, t, session, at, id);
    ReadFinishes(c, s, t, session, at, id);
    assert Next(c, t, d) == WithRead(s, session, at, id);
    steps := PlayThree(c, s, a, b, d);
    assert forall i | 0 <= i < |steps| :: steps[i] in steps;
  }

  lemma ReadFinishes(c: Setup, s: State, t: State, session: string, at: real, id: nat)
    requires Unused(s, id) && t.open == s.open[id := Work(session, LIST, Handling, false)]
    requires t.resolver == s.resolver.(
      phases := s.resolver.phases[id := UidResolver.Resolved(UidResolver.Fill, s.resolver.uid)],
      answers := s.resolver.answers + [s.resolver.uid])
    ensures t.open - {id} == s.open
    ensures UidResolver.Next(t.resolver, UidResolver.Finish(id)) == WithRead(s, session, at, id).resolver
  {
    assert t.resolver.phases - {id} == s.resolver.phases;
  }

  /** The contacts of n handlers. */
  function Handled(session: string, at: real, first: nat, n: nat): seq<Contact> {
    seq(n, i requires 0 <= i < n => Contact(first + i, session, at, false))
  }

  /** n more checks at one instant. */
  function Ticking(checks: seq<Event>, session: string, at: real, n: nat): seq<Event> {
    if n == 0 then checks else Ticking(checks, session, at, n - 1) + [Event(session, at)]
  }

  /** The checks are in order up to `at`, and the session made n of them in that second. */
  ghost predicate Ticked(checks: seq<Event>, session: string, at: real, n: nat) {
    && Chronological(checks) && (checks != [] ==> checks[|checks| - 1].at <= at)
    && ValkeyLimiter.Attempts(checks, session, at.Floor) == n
  }

  lemma OneMoreTick(checks: seq<Event>, session: string, at: real, n: nat)
    requires Ticked(checks, session, at, n)
    ensures Ticked(checks + [Event(session, at)], session, at, n + 1)
  {
    ChronologicalAppend(checks, Event(session, at));
    ValkeyLimiter.OneMoreAttempt(checks, Event(session, at), session, at.Floor);
  }

  lemma {:induction false} TicksCount(checks: seq<Event>, session: string, at: real, n: nat)
    requires Ticked(checks, session, at, 0)
    ensures Ticked(Ticking(checks, session, at, n), session, at, n)
    decreases n
  {
    if n > 0 {
      TicksCount(checks, session, at, n - 1);
      OneMoreTick(Ticking(checks, session, at, n - 1), session, at, n - 1);
    }
  }

  /** From s to t, n reads of the session were let through at one instant. */
  ghost predicate LetThrough(s: State, t: State, session: string, at: real, first: nat, n: nat) {
    && t.contacts == s.contacts + Handled(session, at, first, n)
    && t.checks == Ticking(s.checks, session, at, n)
    && t.resolver.done && t.open == s.open && t.resolver.phases == s.resolver.phases
  }

  lemma OneMoreRead(s: State, t: State, session: string, at: real, first: nat, n: nat)
    requires LetThrough(s, t, session, at, first, n)
    ensures LetThrough(s, WithRead(t, session, at, first + n), session, at, first, n + 1)
  {
    assert Handled(session, at, first, n + 1) == Handled(session, at, first, n) + [Contact(first + n, session, at, false)];
  }

  lemma StillUnused(s: State, t: State, session: string, at: real, first: nat, n: nat)
    requires LetThrough(s, t, session, at, first, n) && Unused(s, first)
    ensures Unused(t, first + n)
  {
  }

  /** The state after n reads. */
  function WithReads(s: State, session: string, at: real, first: nat, n: nat): State {
    if n == 0 then s else WithRead(WithReads(s, session, at, first, n - 1), session, at, first + n - 1)
  }

  lemma {:induction false} WithReadsLetThrough(s: State, session: string, at: real, first: nat, n: nat)
    requires s.resolver.done
    ensures LetThrough(s, WithReads(s, session, at, first, n), session, at, first, n)
  {
    if n > 0 {
      WithReadsLetThrough(s, session, at, first, n - 1);
      OneMoreRead(s, WithReads(s, session, at, first, n - 1), session, at, first, n - 1);
    }
  }

  lemma NextRead(c: Setup, s: State, session: string, at: real, first: nat, n: nat) returns (more: seq<Step>)
    requires s.resolver.done && Ticked(s.checks, session, at, 0) && n < c.rps && Unused(s, first)
    ensures AllAt(more, at)
    ensures Play(c, WithReads(s, session, at, first, n), more) == WithReads(s, session, at, first, n + 1)
  {
    var t := WithReads(s, session, at, first, n);
    WithReadsLetThrough(s, session, at, first, n);
    TicksCount(s.checks, session, at, n);
    StillUnused(s, t, session, at, first, n);
    more := ReadRuns(c, t, session, at, first + n);
  }

  /** The steps lead to the state after n reads, at one instant. */
  ghost predicate Performs(
      c: Setup, s: State, steps: seq<Step>, session: string, at: real, first: nat, n: nat) {
    AllAt(steps, at) && Play(c, s, steps) == WithReads(s, session, at, first, n)
  }

  lemma NothingPerformed(c: Setup, s: State, session: string, at: real, first: nat)
    ensures Performs(c, s, [], session, at, first, 0)
  {
  }

  lemma OneMorePerformed(c: Setup, s: State, steps: seq<Step>, session: string, at: real, first: nat, n: nat)
    returns (longer: seq<Step>)
    requires s.resolver.done && Ticked(s.checks, session, at, 0) && n < c.rps && Unused(s, first)
    requires Performs(c, s, steps, session, at, first, n)
    ensures Performs(c, s, longer, session, at, first, n + 1)
  {
    var more := NextRead(c, s, session, at, first, n);
    PlayOn(c, s, steps, more);
    longer := steps + more;
  }

  lemma {:induction false} ReadsRun(c: Setup, s: State, session: string, at: real, first: nat, n: nat)
    returns (steps: seq<Step>)
    requires s.resolver.done && Ticked(s.checks, session, at, 0) && n <= c.rps && Unused(s, first)
    ensures Performs(c, s, steps, session, at, first, n)
    decreases n
  {
    steps := [];
    if n == 0 {
      NothingPerformed(c, s, session, at, first);
    } else {
      steps := ReadsRun(c, s, session, at, first, n - 1);
      steps := OneMorePerformed(c, s, steps, session, at, first, n - 1);
    }
  }

  lemma {:induction false} HandledReach(session: string, at: real, first: nat, n: nat)
    ensures InWindow(Handled(session, at, first, n), false, session, at, 0.0) == n
    ensures InWindow(Handled(session, at, first, n), true, session, at, 0.0) == 0
  {
    if n > 0 {
      HandledReach(session, at, first, n - 1);
      assert Handled(session, at, first, n)[..n - 1] == Handled(session, at, first, n - 1);
    }
  }

  /** In the second after a run a session has the whole rate. */
  lemma FreshSecond(c: Setup, run: seq<Step>, session: string) returns (at: real)
    requires InTimeOrder(run)
    ensures run != [] ==> run[|run| - 1].at <= at
    ensures Ticked(After(c, run).checks, session, at, 0)
  {
    at := if run == [] then 0.0 else (run[|run| - 1].at.Floor + 1) as real;
    ChecksInOrder(c, run);
    var checks := After(c, run).checks;
    assert checks != [] ==> checks[|checks| - 1] in checks;
    if ValkeyLimiter.Attempts(checks, session, at.Floor) > 0 {
      ValkeyLimiter.AttemptsNeedEvent(checks, session, at.Floor);
    }
  }

  lemma ReadsThenAsk(c: Setup, s: State, session: string, at: real, first: nat, id: nat) returns (steps: seq<Step>)
    requires c.rps >= 0 && s.resolver.done && Ticked(s.checks, session, at, 0) && Unused(s, first)
    requires Pending(s, id) && s.open[id].session == session
    ensures AllAt(steps, at)
    ensures Play(c, s, steps).contacts
         == s.contacts + Handled(session, at, first, c.rps) + [Contact(id, session, at, true)]
  {
    var t := WithReads(s, session, at, first, c.rps);
    WithReadsLetThrough(s, session, at, first, c.rps);
    var burst := ReadsRun(c, s, session, at, first, c.rps);
    OneMoreStep(c, s, burst, Step(at, Ask(id)));
    AskStep(c, t, Step(at, Ask(id)));
    steps := burst + [Step(at, Ask(id))];
  }

  lemma OneMoreReaches(session: string, at: real, first: nat, n: nat, id: nat)
    ensures Reaching(Handled(session, at, first, n) + [Contact(id, session, at, true)], session, at, 0.0) == n + 1
  {
    var asked := [Contact(id, session, at, true)];
    HandledReach(session, at, first, n);
    WindowAdds(Handled(session, at, first, n), asked, true, session, at, 0.0);
    WindowAdds(Handled(session, at, first, n), asked, false, session, at, 0.0);
  }

  /** From any run in which a request is yet to ask, its session can reach Odoo rps + 1 times at one instant. */
  lemma PendingExceeds(c: Setup, run: seq<Step>, id: nat) returns (later: seq<Step>, session: string, at: real)
    requires c.rps >= 1 && InTimeOrder(run) && After(c, run).resolver.done && Pending(After(c, run), id)
    ensures InTimeOrder(run + later)
    ensures Reaching(NewContacts(c, run, later), session, at, 0.0) == c.rps + 1
  {
    var s := After(c, run);
    session := s.open[id].session;
    at := FreshSecond(c, run, session);
    var first := FreshId(s.open.Keys + s.resolver.phases.Keys);
    later := ReadsThenAsk(c, s, session, at, first, id);
    OrderGoesOn(run, later, at);
    assert NewContacts(c, run, later) == Handled(session, at, first, c.rps) + [Contact(id, session, at, true)];
    OneMoreReaches(session, at, first, c.rps, id);
  }

  lemma SettledBounds(c: Setup, run: seq<Step>)
    requires c.rps >= 1 && Settled(After(c, run))
    ensures BoundHolds(c, run)
  {
    forall later, session, from, len | InTimeOrder(run + later) && len >= 0.0
      ensures Reaching(NewContacts(c, run, later), session, from, len) <= c.rps * (ValkeyLimiter.Ceil(len) + 1)
    {
      OnceSettled(c, run, later, session, from, len);
    }
  }

  /** The limiter's bound on what reaches Odoo holds from a run on exactly when the uid is known by then and no request
      that found it unknown is yet to ask. */
  lemma BoundHoldsIffSettled(c: Setup, run: seq<Step>)
    requires c.rps >= 1 && InTimeOrder(run)
    ensures BoundHolds(c, run) <==> Settled(After(c, run))
  {
    if Settled(After(c, run)) {
      SettledBounds(c, run);
    } else if BoundHolds(c, run) {
      if !After(c, run).resolver.done {
        var later, at := UnresolvedIsUnbounded(c, run, "", LIST, c.rps + 1);
        BoundAtInstant(c, run, later, "", at);
      } else {
        var id :| Pending(After(c, run), id);
        var later, session, at := PendingExceeds(c, run, id);
        BoundAtInstant(c, run, later, session, at);
      }
    }
  }
}
