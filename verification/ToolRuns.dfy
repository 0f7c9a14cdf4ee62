/** Whole runs of tool calls: what they send to Odoo, where it goes, and how much of it there can be. */
module ToolRuns {
  import opened Wrappers
  import opened RateTrace
  import TokenBucket
  import opened Routing
  import opened Tools

  /** The rate checks a run makes, in order. */
  function Checks(run: seq<Invocation>): seq<Event> {
    if run == [] then [] else Checks(run[..|run| - 1]) + ChecksOf(run[|run| - 1])
  }

  /** The requests of the last call of a run, given what the rate checker answered to every check. */
  function LastSent(p: Policy, run: seq<Invocation>, ds: seq<bool>): seq<Request>
    requires run != []
  {
    var v := run[|run| - 1];
    Sends(p, Admitted(v, ds), v.call, v.reply)
  }

  /** Everything a run sends to Odoo. */
  function Sent(p: Policy, run: seq<Invocation>, ds: seq<bool>): seq<Request>
    requires |ds| == |Checks(run)|
  {
    if run == [] then []
    else
      var init := run[..|run| - 1];
      Sent(p, init, ds[..|Checks(init)|]) + LastSent(p, run, ds)
  }

  /** What its callers are answered. */
  function Results(p: Policy, run: seq<Invocation>, ds: seq<bool>): seq<Result>
    requires |ds| == |Checks(run)|
  {
    if run == [] then []
    else
      var init, v := run[..|run| - 1], run[|run| - 1];
      Results(p, init, ds[..|Checks(init)|]) + [Outcome(p, Admitted(v, ds), v.call, v.reply)]
  }

  ghost predicate InTimeOrder(run: seq<Invocation>) {
    forall i, j | 0 <= i <= j < |run| :: run[i].at <= run[j].at
  }

  lemma {:induction false} ChecksInTimeOrder(run: seq<Invocation>)
    requires InTimeOrder(run)
    ensures Chronological(Checks(run))
    ensures forall e | e in Checks(run) :: run != [] && e.at <= run[|run| - 1].at
  {
    if run != [] {
      var init := run[..|run| - 1];
      ChecksInTimeOrder(init);
      assert init != [] ==> init[|init| - 1].at <= run[|run| - 1].at;
      var cs := Checks(init);
      assert forall i | 0 <= i < |cs| :: cs[i] in cs;
    }
  }

  lemma OneMoreCheck(rps: int, run: seq<Invocation>, n: nat)
    requires n < |run|
    ensures Checks(run[..n + 1]) == Checks(run[..n]) + ChecksOf(run[n])
    ensures TokenBucket.Verdicts(rps, Checks(run[..n + 1]))[..|Checks(run[..n])|]
         == TokenBucket.Verdicts(rps, Checks(run[..n]))
  {
    var v, checks := run[n], Checks(run[..n]);
    assert run[..n + 1][..n] == run[..n];
    if ConsultsRate(v.call) {
      TokenBucket.OneMore(rps, checks, Event(v.session, v.at));
    } else {
      assert checks + ChecksOf(v) == checks;
    }
  }

  lemma OneMoreCall(rps: int, p: Policy, run: seq<Invocation>, n: nat, ds: seq<bool>)
    requires n < |run| && ds == TokenBucket.Verdicts(rps, Checks(run[..n + 1]))
    ensures var v, before := run[n], TokenBucket.Verdicts(rps, Checks(run[..n]));
      && Sent(p, run[..n + 1], ds) == Sent(p, run[..n], before) + Sends(p, Admitted(v, ds), v.call, v.reply)
      && Results(p, run[..n + 1], ds) == Results(p, run[..n], before) + [Outcome(p, Admitted(v, ds), v.call, v.reply)]
  {
    OneMoreCheck(rps, run, n);
    assert run[..n + 1][..n] == run[..n];
  }

  /** The server has served `run` and nothing else. */
  ghost predicate Served(g: Guardrails, client: Client, run: seq<Invocation>, results: seq<Result>)
    reads g, g.repr, client
  {
    var ds := TokenBucket.Verdicts(g.limiter.rps, Checks(run));
    && g.Valid() && client !in g.repr
    && g.checks == Checks(run)
    && client.sent == Sent(g.Rules(), run, ds)
    && results == Results(g.Rules(), run, ds)
  }

  method ServeNext(g: Guardrails, client: Client, run: seq<Invocation>, n: nat, ghost results: seq<Result>)
    returns (r: Result)
    requires n < |run| && InTimeOrder(run) && Served(g, client, run[..n], results)
    modifies g, g.repr, client
    ensures Served(g, client, run[..n + 1], results + [r]) && fresh(g.repr - old(g.repr))
  {
    ChecksInTimeOrder(run[..n]);
    assert g.checks != [] ==> g.checks[|g.checks| - 1] in g.checks;
    r := Handle(g, client, run[n]);
    OneMoreCheck(g.limiter.rps, run, n);
    TokenBucket.RightVerdictsAreThose(g.limiter.rps, g.checks, g.verdicts);
    OneMoreCall(g.limiter.rps, g.Rules(), run, n, g.verdicts);
  }

  method ServeAll(g: Guardrails, client: Client, run: seq<Invocation>) returns (results: seq<Result>)
    requires InTimeOrder(run) && Served(g, client, [], [])
    modifies g, g.repr, client
    ensures Served(g, client, run, results)
  {
    results := [];
    for n := 0 to |run|
      invariant Served(g, client, run[..n], results)
      invariant fresh(g.repr - old(g.repr))
    {
      var r := ServeNext(g, client, run, n, results);
      results := results + [r];
    }
    assert run[..|run|] == run;
  }

  /** The server with the in-memory limiter, from its start on: every request and every answer of a run. */
  method Serve(policy: Policy, rps: int, run: seq<Invocation>) returns (client: Client, results: seq<Result>)
    requires rps >= 1 && InTimeOrder(run)
    ensures client.sent == Sent(policy, run, TokenBucket.Verdicts(rps, Checks(run)))
    ensures results == Results(policy, run, TokenBucket.Verdicts(rps, Checks(run)))
  {
    var limiter := new TokenBucket.RateLimiter(rps);
    var g := new Guardrails(policy, limiter);
    client := new Client();
    results := ServeAll(g, client, run);
  }

  lemma {:induction false} ChecksPrefix(run: seq<Invocation>, n: nat)
    requires n <= |run|
    ensures Checks(run[..n]) <= Checks(run)
  {
    if n == |run| {
      assert run[..n] == run;
    } else {
      var init := run[..|run| - 1];
      assert init[..n] == run[..n];
      ChecksPrefix(init, n);
    }
  }

  /** What call n of a run sends, given what the rate checker answered to all checks. */
  function SentBy(p: Policy, run: seq<Invocation>, ds: seq<bool>, n: nat): seq<Request>
    requires n < |run| && |ds| == |Checks(run)|
  {
    ChecksPrefix(run, n + 1);
    LastSent(p, run[..n + 1], ds[..|Checks(run[..n + 1])|])
  }

  lemma SentByPrefix(p: Policy, run: seq<Invocation>, ds: seq<bool>, n: nat)
    requires n + 1 < |run| && |ds| == |Checks(run)|
    ensures var init := run[..|run| - 1];
      |Checks(init)| <= |ds| && SentBy(p, init, ds[..|Checks(init)|], n) == SentBy(p, run, ds, n)
  {
    var init := run[..|run| - 1];
    assert init[..n + 1] == run[..n + 1];
    ChecksPrefix(run, n + 1);
    ChecksPrefix(init, n + 1);
    var k := |Checks(run[..n + 1])|;
    assert ds[..|Checks(init)|][..k] == ds[..k];
  }

  lemma SentByLast(p: Policy, run: seq<Invocation>, ds: seq<bool>)
    requires run != [] && |ds| == |Checks(run)|
    ensures SentBy(p, run, ds, |run| - 1) == LastSent(p, run, ds)
  {
    assert run[..|run|] == run && ds[..|ds|] == ds;
  }

  /** What a run sends is what its calls send. */
  lemma {:induction false} SentByCalls(p: Policy, run: seq<Invocation>, ds: seq<bool>, r: Request)
    requires |ds| == |Checks(run)|
    ensures r in Sent(p, run, ds) <==> exists n :: 0 <= n < |run| && r in SentBy(p, run, ds, n)
  {
    if run != [] {
      var m := |run| - 1;
      var init, before := run[..m], ds[..|Checks(run[..m])|];
      SentByCalls(p, init, before, r);
      SentByLast(p, run, ds);
      forall n | 0 <= n < m
        ensures SentBy(p, init, before, n) == SentBy(p, run, ds, n)
      {
        SentByPrefix(p, run, ds, n);
      }
      if r in Sent(p, init, before) {
        var n :| 0 <= n < |init| && r in SentBy(p, init, before, n);
        assert r in SentBy(p, run, ds, n);
      }
    }
  }

  // Where the requests go.

  /** The request reaches the model and the method that it names. */
  predicate AsNamed(r: Request) {
    Routed(r.model, r.operation) == Some((r.model, r.operation))
  }

  /** The names that a call itself puts into a path are plain. */
  predicate NamesPlain(c: ToolCall) {
    match c
    case ListModels(_) => true
    case ServerInfo => true
    case MessagePost(_, _, _, _, _) => true
    case Call(model, operation, _, _) => Plain(model) && Plain(operation)
    case _ => Plain(c.model)
  }

  lemma OwnNamesPlain()
    ensures Plain("ir.model") && Plain("res.users") && Plain("ir.model.data") && Plain("mail.message")
    ensures Plain("search_read") && Plain("search_count") && Plain("context_get") && Plain("fields_get")
    ensures Plain("res.partner") && Plain("read") && Plain("create") && Plain("write") && Plain("unlink")
  {
  }

  predicate PlainRequest(r: Request) {
    Plain(r.model) && Plain(r.operation)
  }

  lemma SubtypeLookupsPlain(xmlid: string)
    ensures forall r | r in SubtypeLookups(xmlid) :: PlainRequest(r)
  {
    OwnNamesPlain();
  }

  lemma WantedPlain(c: ToolCall, reply: Reply)
    requires WellFormed(c)
    ensures (forall r | r in Wanted(c, reply) :: PlainRequest(r)) <==> NamesPlain(c)
  {
    OwnNamesPlain();
    var wanted := Wanted(c, reply);
    match c
    case MessagePost(_, _, _, _, _) =>
      SubtypeLookupsPlain(SubtypeOf(c));
    case _ =>
      assert NamesPlain(c) <==> PlainRequest(wanted[0]);
  }

  /** The requests of a call go where they say exactly when the names that the call gives are plain. */
  lemma CallAsNamed(c: ToolCall, reply: Reply)
    requires WellFormed(c)
    ensures (forall r | r in Wanted(c, reply) :: AsNamed(r)) <==> NamesPlain(c)
  {
    forall r | r in Wanted(c, reply)
      ensures AsNamed(r) <==> PlainRequest(r)
    {
      RoutedAsNamed(r.model, r.operation);
    }
    WantedPlain(c, reply);
  }

  /** Every call of the run that sends anything gives plain names. */
  ghost predicate PlainRun(p: Policy, run: seq<Invocation>, ds: seq<bool>)
    requires |ds| == |Checks(run)|
  {
    forall n | 0 <= n < |run| && SentBy(p, run, ds, n) != [] :: NamesPlain(run[n].call)
  }

  /** What one call of a run sends goes where it says exactly when its names are plain or it sends nothing. */
  lemma SentAsNamed(p: Policy, run: seq<Invocation>, ds: seq<bool>, n: nat)
    requires n < |run| && |ds| == |Checks(run)|
    ensures (forall r | r in SentBy(p, run, ds, n) :: AsNamed(r))
      <==> SentBy(p, run, ds, n) == [] || NamesPlain(run[n].call)
  {
    if SentBy(p, run, ds, n) != [] {
      CallAsNamed(run[n].call, run[n].reply);
    }
  }

  /** Everything a run sends goes where it says exactly when the calls that send anything give plain names. */
  lemma RunAsNamed(p: Policy, run: seq<Invocation>, ds: seq<bool>)
    requires |ds| == |Checks(run)|
    ensures (forall r | r in Sent(p, run, ds) :: AsNamed(r)) <==> PlainRun(p, run, ds)
  {
    if PlainRun(p, run, ds) {
      forall r | r in Sent(p, run, ds)
        ensures AsNamed(r)
      {
        SentByCalls(p, run, ds, r);
        var n :| 0 <= n < |run| && r in SentBy(p, run, ds, n);
        SentAsNamed(p, run, ds, n);
      }
    } else {
      var n :| 0 <= n < |run| && SentBy(p, run, ds, n) != [] && !NamesPlain(run[n].call);
      SentAsNamed(p, run, ds, n);
      var r :| r in SentBy(p, run, ds, n) && !AsNamed(r);
      SentByCalls(p, run, ds, r);
    }
  }

  /** What a tool contacts on its own account, whatever its arguments are. */
  function Own(c: ToolCall): set<(string, string)> {
    match c
    case ListModels(_) => {("ir.model", "search_read")}
    case ServerInfo => {("res.users", "context_get"), ("res.users", "read")}
    case MessagePost(_, _, _, _, _) => {("ir.model.data", "search_read"), ("mail.message", "create")}
    case _ => {}
  }

  /** Methods that never change anything in Odoo. */
  const READING_METHODS: set<string> :=
    {"name_search", "default_get", "fields_get", "fields_view_get", "read_group", "search_count", "get_views", "onchange",
     "search_read", "read", "context_get"}

  /** The model and the method that a request reaches, if any. */
  function Reached(r: Request): Option<(string, string)> {
    Routed(r.model, r.operation)
  }

  /** It is in order for a call to reach `to`: no blocked model, except in the tool's own requests, and no method that
      may change something while the server is read-only. */
  predicate InOrder(p: Policy, c: ToolCall, to: Option<(string, string)>) {
    to.Some? ==>
      && (to.value.0 in p.blocked ==> to.value in Own(c))
      && (p.readOnly ==> to.value.1 in READING_METHODS)
  }

  /** What is reached is covered by the names that the guards look at, or is the tool's own. */
  predicate Covered(c: ToolCall, to: Option<(string, string)>) {
    to.Some? ==>
      && (GuardedModel(c) == Some(to.value.0) || to.value in Own(c))
      && (Mutates(c) || to.value.1 in READING_METHODS)
  }

  lemma CoveredIff(c: ToolCall, to: Option<(string, string)>)
    ensures (forall p | Permitted(p, c) :: InOrder(p, c, to)) <==> Covered(c, to)
  {
    if to.Some? && forall p | Permitted(p, c) :: InOrder(p, c, to) {
      var blocking, reading := Policy({to.value.0}, false), Policy({}, true);
      assert Permitted(blocking, c) ==> InOrder(blocking, c, to);
      assert Permitted(reading, c) ==> InOrder(reading, c, to);
    }
  }

  /** The guards keep a call in order under every policy exactly when what it reaches is covered by what it names. */
  lemma GuardsSufficeIff(c: ToolCall, reply: Reply)
    requires WellFormed(c)
    ensures (forall p, r | Permitted(p, c) && r in Wanted(c, reply) :: InOrder(p, c, Reached(r)))
      <==> forall r | r in Wanted(c, reply) :: Covered(c, Reached(r))
  {
    forall r | r in Wanted(c, reply)
      ensures (forall p | Permitted(p, c) :: InOrder(p, c, Reached(r))) <==> Covered(c, Reached(r))
    {
      CoveredIff(c, Reached(r));
    }
  }

  lemma WantedNames(c: ToolCall, reply: Reply, r: Request)
    requires WellFormed(c) && r in Wanted(c, reply)
    ensures GuardedModel(c) == Some(r.model) || (r.model, r.operation) in Own(c)
    ensures Mutates(c) || r.operation in READING_METHODS
  {
  }

  lemma PlainIsCovered(c: ToolCall, reply: Reply, r: Request)
    requires WellFormed(c) && NamesPlain(c) && r in Wanted(c, reply)
    ensures AsNamed(r) && Covered(c, Reached(r))
  {
    CallAsNamed(c, reply);
    WantedNames(c, reply, r);
  }

  /** No call with plain names is out of order, and a delete call never sends empty ids. */
  lemma CallInOrder(p: Policy, admitted: bool, c: ToolCall, reply: Reply)
    requires NamesPlain(c)
    ensures forall r | r in Sends(p, admitted, c, reply) :: AsNamed(r) && InOrder(p, c, Reached(r))
    ensures c.Unlink? ==> forall r | r in Sends(p, admitted, c, reply) :: r.body["ids"] != Ids([])
  {
    if Passes(p, admitted, c) {
      forall r | r in Wanted(c, reply)
        ensures AsNamed(r) && InOrder(p, c, Reached(r))
      {
        PlainIsCovered(c, reply, r);
        CoveredIff(c, Reached(r));
      }
    }
  }

  /** What call n of a run sends is what it sends with its own verdict. */
  lemma SentByIs(p: Policy, run: seq<Invocation>, ds: seq<bool>, n: nat) returns (admitted: bool)
    requires n < |run| && |ds| == |Checks(run)|
    ensures SentBy(p, run, ds, n) == Sends(p, admitted, run[n].call, run[n].reply)
  {
    ChecksPrefix(run, n + 1);
    admitted := Admitted(run[n], ds[..|Checks(run[..n + 1])|]);
  }

  /** The requests of a call are in order. */
  ghost predicate AllInOrder(p: Policy, c: ToolCall, rs: seq<Request>) {
    forall r | r in rs :: AsNamed(r) && InOrder(p, c, Reached(r))
  }

  /** Nor is any call of a run whose sending calls give plain names. */
  lemma RunsInOrder(p: Policy, run: seq<Invocation>, ds: seq<bool>)
    requires |ds| == |Checks(run)| && PlainRun(p, run, ds)
    ensures forall n | 0 <= n < |run| :: AllInOrder(p, run[n].call, SentBy(p, run, ds, n))
  {
    forall n | 0 <= n < |run|
      ensures AllInOrder(p, run[n].call, SentBy(p, run, ds, n))
    {
      var admitted := SentByIs(p, run, ds, n);
      if SentBy(p, run, ds, n) != [] {
        CallInOrder(p, admitted, run[n].call, run[n].reply);
      }
    }
  }

  /** The reading methods by name; none of them creates, writes or deletes. */
  lemma ElevenMethods(operation: string)
    ensures operation in READING_METHODS <==>
      || operation == "search_read" || operation == "read" || operation == "context_get" || operation == "search_count"
      || operation == "fields_get" || operation == "name_search" || operation == "default_get"
      || operation == "fields_view_get" || operation == "read_group" || operation == "get_views"
      || operation == "onchange"
    ensures operation in READING_METHODS ==> operation != "create" && operation != "write" && operation != "unlink"
  {
  }

  lemma ReadOnlyReaches(p: Policy, run: seq<Invocation>, ds: seq<bool>, n: nat, r: Request)
    requires |ds| == |Checks(run)| && PlainRun(p, run, ds) && p.readOnly
    requires n < |run| && r in SentBy(p, run, ds, n)
    ensures Reached(r).Some? && Reached(r).value.1 in READING_METHODS
  {
    RunsInOrder(p, run, ds);
    assert AllInOrder(p, run[n].call, SentBy(p, run, ds, n));
    assert AsNamed(r) && InOrder(p, run[n].call, Reached(r));
  }

  /** In read-only mode no call of any run with plain names reaches a method outside these eleven, and so none of those
      that create, write or delete. */
  lemma ReadOnlyRunsRead(p: Policy, run: seq<Invocation>, ds: seq<bool>, n: nat, r: Request)
    requires |ds| == |Checks(run)| && PlainRun(p, run, ds) && p.readOnly
    requires n < |run| && r in SentBy(p, run, ds, n)
    ensures Reached(r).Some?
    ensures var operation := Reached(r).value.1;
      && (|| operation == "search_read" || operation == "read" || operation == "context_get"
          || operation == "search_count" || operation == "fields_get" || operation == "name_search"
          || operation == "default_get" || operation == "fields_view_get" || operation == "read_group"
          || operation == "get_views" || operation == "onchange")
      && operation != "create" && operation != "write" && operation != "unlink"
  {
    ReadOnlyReaches(p, run, ds, n, r);
    ElevenMethods(Reached(r).value.1);
  }

  /** In read-only mode an odoo_call of an unblocked model passes exactly when it names one of these eight methods; and
      no other tool that changes anything passes. */
  lemma ReadOnlyCallIff(
      blocked: set<string>, model: string, operation: string, ids: seq<int>, kwargs: map<string, Value>)
    requires model !in blocked
    ensures Passes(Policy(blocked, true), true, Call(model, operation, Some(ids), Some(kwargs))) <==>
      || operation == "name_search" || operation == "default_get" || operation == "fields_get"
      || operation == "fields_view_get" || operation == "read_group" || operation == "search_count"
      || operation == "get_views" || operation == "onchange"
  {
  }

  lemma ReadOnlyRefuses(blocked: set<string>, admitted: bool, c: ToolCall)
    requires c.Create? || c.Write? || c.Unlink? || c.MessagePost?
    ensures !Passes(Policy(blocked, true), admitted, c)
  {
  }

  /** Every tool that names a model is refused when that model is blocked. */
  lemma BlockedRefuses(p: Policy, admitted: bool, c: ToolCall)
    requires c.SearchRead? || c.Read? || c.FieldsGet? || c.Create? || c.Write? || c.Unlink? || c.Call? || c.MessagePost?
    requires c.model in p.blocked
    ensures !Passes(p, admitted, c)
  {
  }

  /** Which arguments a tool accepts. */
  lemma WellFormedIff(c: ToolCall)
    ensures c.MessagePost? ==> (WellFormed(c) <==> c.recordID != 0 && c.body != "")
    ensures c.Unlink? ==> (WellFormed(c) <==> c.ids.Some? && |c.ids.value| > 0)
    ensures c.Write? ==> (WellFormed(c) <==> c.ids.Some? && c.values.Some?)
    ensures c.Create? ==> (WellFormed(c) <==> c.values.Some?)
    ensures c.Call? ==> (WellFormed(c) <==> c.ids.Some? && c.kwargs.Some?)
    ensures c.SearchRead? ==> (WellFormed(c) <==> c.query.Some?)
    ensures c.Read? ==> (WellFormed(c) <==> c.ids.Some? && c.fields.Some?)
    ensures c.FieldsGet? ==> (WellFormed(c) <==> c.attributes.Some?)
    ensures c.ListModels? || c.ServerInfo? ==> WellFormed(c)
  {
  }

  /** The first failing check decides: bad arguments come before the rate, except for create, write and unlink; then the
      rate, the model, the write mode. */
  lemma RefusalOrder(p: Policy, admitted: bool, c: ToolCall)
    ensures !WellFormed(c) && !c.Create? && !c.Write? && !c.Unlink? ==>
      Refusal(p, admitted, c) == Some(BadInput) && !ConsultsRate(c)
    ensures WellFormed(c) || c.Create? || c.Write? || c.Unlink? ==>
      && ConsultsRate(c)
      && (!admitted ==> Refusal(p, admitted, c) == Some(RateExceeded))
      && (admitted && !c.ListModels? && !c.ServerInfo? && c.model in p.blocked ==>
            Refusal(p, admitted, c) == Some(ModelBlocked))
    ensures c.Create? || c.Write? || c.Unlink? || (c.MessagePost? && WellFormed(c)) ==>
      (admitted && c.model !in p.blocked && p.readOnly ==> Refusal(p, admitted, c) == Some(ReadOnly))
    ensures (c.Create? || c.Write? || c.Unlink?) && !WellFormed(c) ==>
      (admitted && c.model !in p.blocked && !p.readOnly ==> Refusal(p, admitted, c) == Some(BadInput))
  {
  }

  /** A call of a method on one record. */
  function CallOf(model: string, operation: string): ToolCall {
    Call(model, operation, Some([1]), Some(map[]))
  }

  lemma CallOfPasses(p: Policy, model: string, operation: string, reply: Reply)
    requires model !in p.blocked && (p.readOnly ==> operation in READ_ONLY_METHODS)
    ensures Passes(p, true, CallOf(model, operation))
    ensures Request(model, operation, CallBody([1], map[])) in Sends(p, true, CallOf(model, operation), reply)
  {
    assert Sends(p, true, CallOf(model, operation), reply) == [Request(model, operation, CallBody([1], map[]))];
  }

  /** Without plain names calls can be out of order. A name that goes on after a model and a method, with '#' and any text
      without '%', reaches that method, whatever method the call names: on a blocked model, and in read-only mode. */
  lemma NamesNeedNotBePlain(
      p: Policy, model: string, operation: string, fragment: string, named: string, reply: Reply)
    returns (c: ToolCall, r: Request)
    requires Plain(model) && Plain(operation) && '%' !in fragment && '%' !in named
    requires Tail(model, operation) + "#" + fragment !in p.blocked && (p.readOnly ==> named in READ_ONLY_METHODS)
    ensures c == CallOf(Tail(model, operation) + "#" + fragment, named)
    ensures Passes(p, true, c) && r in Sends(p, true, c, reply) && Reached(r) == Some((model, operation))
    ensures InOrder(p, c, Reached(r)) <==> model !in p.blocked && (p.readOnly ==> operation in READING_METHODS)
  {
    var name := Tail(model, operation) + "#" + fragment;
    c, r := CallOf(name, named), Request(name, named, CallBody([1], map[]));
    CallOfPasses(p, name, named, reply);
    FragmentIsNotSent(model, operation, fragment, named);
  }

  /** Two such calls: a write to a blocked model in read-only mode, and one to blocked users. */
  lemma GuardsBypassed(fragment: string, reply: Reply)
    requires '%' !in fragment
    ensures var p, c := Policy({"res.partner"}, true), CallOf("res.partner/write#" + fragment, "search_count");
      Passes(p, true, c) && exists r | r in Sends(p, true, c, reply) :: !InOrder(p, c, Reached(r))
    ensures var p, c := Policy({"res.users"}, false), CallOf("res.users/write#" + fragment, "write");
      Passes(p, true, c) && exists r | r in Sends(p, true, c, reply) :: !InOrder(p, c, Reached(r))
  {
    OwnNamesPlain();
    var tail, users := "res.partner/write#" + fragment, "res.users/write#" + fragment;
    assert tail == Tail("res.partner", "write") + "#" + fragment && |tail| > |"res.partner"|;
    assert users == Tail("res.users", "write") + "#" + fragment && |users| > |"res.users"|;
    var c, r := NamesNeedNotBePlain(
      Policy({"res.partner"}, true), "res.partner", "write", fragment, "search_count", reply);
    c, r := NamesNeedNotBePlain(Policy({"res.users"}, false), "res.users", "write", fragment, "write", reply);
  }

  // Exactly when a blocked model can be contacted at all.

  /** The models that tools contact on their own account. */
  predicate OwnModel(p: Policy, model: string) {
    || model == "ir.model" || model == "res.users"
    || (!p.readOnly && (model == "ir.model.data" || model == "mail.message"))
  }

  predicate Reaches(r: Request, model: string) {
    Routed(r.model, r.operation).Some? && Routed(r.model, r.operation).value.0 == model
  }

  ghost predicate Contacts(p: Policy, c: ToolCall, reply: Reply, model: string) {
    exists r | r in Sends(p, true, c, reply) :: Reaches(r, model)
  }

  /** A name longer than every blocked one. */
  ghost function Unblocked(blocked: set<string>): (name: string)
    ensures name !in blocked && name != ""
  {
    var n := Longest(blocked);
    seq(n + 1, _ => 'x')
  }

  ghost function Longest(names: set<string>): (n: nat)
    ensures forall s | s in names :: |s| <= n
  {
    if names == {} then 0
    else
      var s :| s in names;
      var n := Longest(names - {s});
      if |s| > n then |s| else n
  }

  /** A request names the model of the call, or one that its tool uses on its own account. */
  lemma WantedModels(p: Policy, c: ToolCall, reply: Reply)
    requires WellFormed(c) && Permitted(p, c)
    ensures forall r | r in Wanted(c, reply) :: GuardedModel(c) == Some(r.model) || OwnModel(p, r.model)
  {
    match c
    case MessagePost(_, _, _, _, _) =>
      assert forall r | r in SubtypeLookups(SubtypeOf(c)) :: r.model == "ir.model.data";
    case _ =>
  }

  /** A message to a record of an unblocked model, with a subtype to look up. */
  ghost function AnyMessage(p: Policy): ToolCall {
    MessagePost(Unblocked(p.blocked), 1, "x", "", "m.n")
  }

  const NO_REPLY := Reply(false, [], false, [], 0, None)

  lemma MessagePostContacts(p: Policy)
    requires !p.readOnly
    ensures Contacts(p, AnyMessage(p), NO_REPLY, "ir.model.data")
    ensures Contacts(p, AnyMessage(p), NO_REPLY, "mail.message")
  {
    var c := AnyMessage(p);
    assert "m.n"[1] == '.';
    assert LastDot("m.n") == 1;
    var sent := Sends(p, true, c, NO_REPLY);
    assert sent == Wanted(c, NO_REPLY) && |sent| == 2;
    CallAsNamed(c, NO_REPLY);
    assert sent[0] in sent && AsNamed(sent[0]) && sent[0].model == "ir.model.data";
    assert sent[1] in sent && AsNamed(sent[1]) && sent[1].model == "mail.message";
  }

  lemma ListModelsContacts(p: Policy)
    ensures Contacts(p, ListModels(""), NO_REPLY, "ir.model")
  {
    CallAsNamed(ListModels(""), NO_REPLY);
    var sent := Sends(p, true, ListModels(""), NO_REPLY);
    assert sent[0] in sent && Reaches(sent[0], "ir.model");
  }

  lemma ServerInfoContacts(p: Policy)
    ensures Contacts(p, ServerInfo, NO_REPLY, "res.users")
  {
    CallAsNamed(ServerInfo, NO_REPLY);
    var sent := Sends(p, true, ServerInfo, NO_REPLY);
    assert sent[0] in sent && Reaches(sent[0], "res.users");
  }

  lemma OwnModelContacted(p: Policy, model: string) returns (c: ToolCall)
    requires OwnModel(p, model)
    ensures NamesPlain(c) && Contacts(p, c, NO_REPLY, model)
  {
    if model == "ir.model" {
      c := ListModels("");
      ListModelsContacts(p);
    } else if model == "res.users" {
      c := ServerInfo;
      ServerInfoContacts(p);
    } else {
      c := AnyMessage(p);
      MessagePostContacts(p);
    }
  }

  /** A blocked model is reached by some call with plain names exactly when it is one of the tools' own models. */
  lemma BlockedContactIsExact(p: Policy, model: string)
    requires model in p.blocked
    ensures (exists c, reply :: NamesPlain(c) && Contacts(p, c, reply, model)) <==> OwnModel(p, model)
  {
    forall c, reply | NamesPlain(c) && Contacts(p, c, reply, model)
      ensures OwnModel(p, model)
    {
      var r :| r in Sends(p, true, c, reply) && Reaches(r, model);
      CallAsNamed(c, reply);
      assert AsNamed(r);
      WantedModels(p, c, reply);
    }
    if OwnModel(p, model) {
      var c := OwnModelContacted(p, model);
    }
  }

  // How much reaches Odoo.

  /** Every call that sends anything made a rate check of its own, and that check was let through. */
  lemma SendsOnlyIfAdmitted(p: Policy, run: seq<Invocation>, ds: seq<bool>, n: nat) returns (k: nat)
    requires n < |run| && |ds| == |Checks(run)| && SentBy(p, run, ds, n) != []
    ensures k < |ds| && ds[k] && k == |Checks(run[..n])|
    ensures Checks(run)[k] == Event(run[n].session, run[n].at)
  {
    ChecksPrefix(run, n + 1);
    assert run[..n + 1][..n] == run[..n];
    k := |Checks(run[..n])|;
    assert Checks(run[..n + 1]) == Checks(run[..n]) + [Event(run[n].session, run[n].at)];
  }

  /** How many calls of a session in the closed window reached Odoo. */
  function Reaching(p: Policy, run: seq<Invocation>, ds: seq<bool>, session: string, from: real, len: real): nat
    requires |ds| == |Checks(run)|
  {
    if run == [] then 0
    else
      var init, v := run[..|run| - 1], run[|run| - 1];
      Reaching(p, init, ds[..|Checks(init)|], session, from, len)
        + if v.session == session && from <= v.at <= from + len && LastSent(p, run, ds) != [] then 1 else 0
  }

  /** What the last call of a run adds to the checks and to what reaches Odoo. */
  lemma LastCall(p: Policy, run: seq<Invocation>, ds: seq<bool>, session: string, from: real, len: real)
    requires run != [] && |ds| == |Checks(run)|
    ensures var init, v := run[..|run| - 1], run[|run| - 1];
      var k := |Checks(init)|;
      if ConsultsRate(v.call) then
        && |ds| == k + 1
        && Checks(run) == Checks(init) + [Event(v.session, v.at)]
        && Reaching(p, run, ds, session, from, len) <= Reaching(p, init, ds[..k], session, from, len)
             + if v.session == session && ds[k] && from <= v.at <= from + len then 1 else 0
      else
        && |ds| == k
        && Checks(run) == Checks(init)
        && Reaching(p, run, ds, session, from, len) == Reaching(p, init, ds[..k], session, from, len)
  {
  }

  /** Only calls that the rate checker admitted reach Odoo. */
  lemma {:induction false} ReachingIsAdmitted(
      p: Policy, run: seq<Invocation>, ds: seq<bool>, session: string, from: real, len: real)
    requires |ds| == |Checks(run)|
    ensures Reaching(p, run, ds, session, from, len) <= SessionInWindow(Checks(run), ds, session, from, len)
    decreases |run|
  {
    if run != [] {
      var init, v := run[..|run| - 1], run[|run| - 1];
      var k := |Checks(init)|;
      LastCall(p, run, ds, session, from, len);
      ReachingIsAdmitted(p, init, ds[..k], session, from, len);
      if ConsultsRate(v.call) {
        SessionWindowStep(Checks(init), ds[..k], Event(v.session, v.at), ds[k], session, from, len);
        assert ds[..k] + [ds[k]] == ds;
      } else {
        assert ds[..k] == ds;
      }
    }
  }

  /** With the token bucket, at most rps + rps * len calls of a session reach Odoo in any window of length len. */
  lemma OdooLoadBucket(p: Policy, rps: int, run: seq<Invocation>, session: string, from: real, len: real)
    requires rps >= 1 && InTimeOrder(run) && len >= 0.0
    ensures Reaching(p, run, TokenBucket.Verdicts(rps, Checks(run)), session, from, len) as real
         <= rps as real + TokenBucket.Earned(rps, len)
  {
    ChecksInTimeOrder(run);
    ReachingIsAdmitted(p, run, TokenBucket.Verdicts(rps, Checks(run)), session, from, len);
    TokenBucket.BucketWindow(rps, Checks(run), session, from, len);
  }
}
