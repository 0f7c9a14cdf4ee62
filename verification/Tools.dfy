/** The guarded tool handlers: the order of their checks, and what they send to Odoo. */
module Tools {
  import opened Wrappers
  import opened RateTrace
  import opened TokenBucket
  import Paging = SearchRead

  /** Parts of request bodies; `Json` is text that a caller supplies as it is. */
  datatype Value =
    | Ids(ids: seq<int>)
    | Names(names: seq<string>)
    | Num(n: int)
    | Text(text: string)
    | Json(json: string)
    | List(items: seq<Value>)
    | Vals(fields: map<string, Value>)

  /** POST /json/2/{model}/{method}. */
  datatype Request = Request(model: string, operation: string, body: map<string, Value>)

  datatype Query = Query(domain: string, fields: seq<string>, limit: Option<real>, offset: int, order: string)

  /** A tool call with its arguments as far as they parse; None is an argument that does not. */
  datatype ToolCall =
    | SearchRead(model: string, query: Option<Query>)
    | Read(model: string, ids: Option<seq<int>>, fields: Option<seq<string>>)
    | FieldsGet(model: string, attributes: Option<seq<string>>)
    | ListModels(filter: string)
    | ServerInfo
    | Create(model: string, values: Option<Value>)
    | Write(model: string, ids: Option<seq<int>>, values: Option<Value>)
    | Unlink(model: string, ids: Option<seq<int>>)
    | Call(model: string, operation: string, ids: Option<seq<int>>, kwargs: Option<map<string, Value>>)
    | MessagePost(model: string, recordID: int, body: string, messageType: string, subtypeXmlid: string)

  /** What Odoo answers to the requests of one call: whether it accepts the main one, the ids of the matching records,
      whether it counts them, the names of its models, the uid of the caller, and the id of the message subtype. */
  datatype Reply = Reply(ok: bool, matches: seq<int>, counts: bool, models: seq<string>, uid: int, subtype: Option<int>)

  datatype Invocation = Invocation(session: string, at: real, call: ToolCall, reply: Reply)

  datatype Why = BadInput | RateExceeded | ModelBlocked | ReadOnly | OdooFailed

  datatype Result =
    | Done
    | Listed(records: seq<int>, notice: Option<Paging.Notice>)
    | Models(names: seq<string>)
    | ToolError(why: Why)

  const READ_ONLY_METHODS: set<string> :=
    {"name_search", "default_get", "fields_get", "fields_view_get", "read_group", "search_count", "get_views", "onchange"}

  // What the guards decide, independently of any handler.

  /** The model a call names, which the guard looks up; three tools name none. */
  function GuardedModel(c: ToolCall): Option<string> {
    match c
    case ListModels(_) => None
    case ServerInfo => None
    case _ => Some(c.model)
  }

  predicate Mutates(c: ToolCall) {
    c.Create? || c.Write? || c.Unlink? || c.MessagePost? || (c.Call? && c.operation !in READ_ONLY_METHODS)
  }

  predicate WellFormed(c: ToolCall) {
    match c
    case SearchRead(_, query) => query.Some?
    case Read(_, ids, fields) => ids.Some? && fields.Some?
    case FieldsGet(_, attributes) => attributes.Some?
    case ListModels(_) => true
    case ServerInfo => true
    case Create(_, values) => values.Some?
    case Write(_, ids, values) => ids.Some? && values.Some?
    case Unlink(_, ids) => ids.Some? && ids.value != []
    case Call(_, _, ids, kwargs) => ids.Some? && kwargs.Some?
    case MessagePost(_, recordID, body, _, _) => recordID != 0 && body != ""
  }

  /** Create, write and unlink spend a rate token before they look at their arguments; the others after. */
  predicate RateFirst(c: ToolCall) {
    c.Create? || c.Write? || c.Unlink?
  }

  predicate ConsultsRate(c: ToolCall) {
    RateFirst(c) || WellFormed(c)
  }

  datatype Policy = Policy(blocked: set<string>, readOnly: bool)

  predicate Permitted(p: Policy, c: ToolCall) {
    && (GuardedModel(c).Some? ==> GuardedModel(c).value !in p.blocked)
    && (p.readOnly ==> !Mutates(c))
  }

  /** Every guard lets the call through. */
  predicate Passes(p: Policy, admitted: bool, c: ToolCall) {
    WellFormed(c) && admitted && Permitted(p, c)
  }

  /** The guards in their order: the rate, the model, and the write mode. */
  function Guarded(p: Policy, admitted: bool, model: Option<string>, mutates: bool): Option<Why> {
    if !admitted then Some(RateExceeded)
    else if model.Some? && model.value in p.blocked then Some(ModelBlocked)
    else if p.readOnly && mutates then Some(ReadOnly)
    else None
  }

  /** Why a call is refused: the first failing step in its tool's order. */
  function Refusal(p: Policy, admitted: bool, c: ToolCall): Option<Why> {
    if !RateFirst(c) && !WellFormed(c) then Some(BadInput)
    else if Guarded(p, admitted, GuardedModel(c), Mutates(c)).Some? then
      Guarded(p, admitted, GuardedModel(c), Mutates(c))
    else if !WellFormed(c) then Some(BadInput)
    else None
  }

  lemma RefusedIffNotPassing(p: Policy, admitted: bool, c: ToolCall)
    ensures Refusal(p, admitted, c).None? <==> Passes(p, admitted, c)
  {
  }

  // What a call that passes sends.

  /** The position of the last dot, or -1. */
  function LastDot(xmlid: string): (i: int)
    ensures -1 <= i < |xmlid|
    ensures i >= 0 ==> xmlid[i] == '.'
    ensures forall j | i < j < |xmlid| :: xmlid[j] != '.'
  {
    if xmlid == "" then -1
    else if xmlid[|xmlid| - 1] == '.' then |xmlid| - 1
    else LastDot(xmlid[..|xmlid| - 1])
  }

  function SetIf(body: map<string, Value>, present: bool, key: string, v: Value): map<string, Value> {
    if present then body[key := v] else body
  }

  /** A search leaves out what its caller did not set, and a limit or offset that is not positive. */
  function SearchBody(q: Query): map<string, Value> {
    var limit := Paging.EffectiveLimit(q.limit);
    var options := Paging.RequestOptions(limit, q.offset);
    var fields := SetIf(map["domain" := Json(q.domain)], q.fields != [], "fields", Names(q.fields));
    var limited := SetIf(fields, options.limit.Some?, "limit", Num(limit));
    var shifted := SetIf(limited, options.offset.Some?, "offset", Num(q.offset));
    SetIf(shifted, q.order != "", "order", Text(q.order))
  }

  function NamesBody(key: string, names: seq<string>): map<string, Value> {
    if names != [] then map[key := Names(names)] else map[]
  }

  /** Keyword arguments win over the ids of the call. */
  function CallBody(ids: seq<int>, kwargs: map<string, Value>): map<string, Value> {
    (if ids != [] then map["ids" := Ids(ids)] else map[]) + kwargs
  }

  function OrDefault(s: string, default: string): string {
    if s == "" then default else s
  }

  function SubtypeOf(c: ToolCall): string
    requires c.MessagePost?
  {
    OrDefault(c.subtypeXmlid, "mail.mt_comment")
  }

  /** A subtype is looked up when its xmlid has a module, and is 1 when it cannot be found. */
  function SubtypeId(xmlid: string, found: Option<int>): int {
    if LastDot(xmlid) > 0 && found.Some? then found.value else 1
  }

  function Equals(field: string, value: string): Value {
    List([Text(field), Text("="), Text(value)])
  }

  function SubtypeLookup(space: string, name: string): Request {
    Request("ir.model.data", "search_read", map[
      "domain" := List([Equals("module", space), Equals("name", name), Equals("model", "mail.message.subtype")]),
      "fields" := Names(["res_id"]),
      "limit" := Num(1)])
  }

  function SubtypeLookups(xmlid: string): seq<Request> {
    var i := LastDot(xmlid);
    if i <= 0 then [] else [SubtypeLookup(xmlid[..i], xmlid[i + 1..])]
  }

  /** The mail.message record of a chatter post. */
  function MessageVals(body: string, messageType: string, model: string, recordID: int, subtypeID: int): Value {
    Vals(map["body" := Text(body), "message_type" := Text(messageType), "model" := Text(model),
             "res_id" := Num(recordID), "subtype_id" := Num(subtypeID)])
  }

  function MessageRequests(c: ToolCall, subtype: Option<int>): seq<Request>
    requires c.MessagePost?
  {
    var vals := MessageVals(
      c.body, OrDefault(c.messageType, "comment"), c.model, c.recordID, SubtypeId(SubtypeOf(c), subtype));
    SubtypeLookups(SubtypeOf(c)) + [Request("mail.message", "create", map["vals_list" := List([vals])])]
  }

  const CONTEXT_GET := Request("res.users", "context_get", map[])

  function ServerInfoRequests(reply: Reply): seq<Request> {
    [CONTEXT_GET]
      + if reply.ok && reply.uid > 0
        then [Request("res.users", "read", map["ids" := Ids([reply.uid]), "fields" := Names(["login", "name"])])]
        else []
  }

  function SearchRequests(model: string, q: Query, reply: Reply): seq<Request> {
    [Request(model, "search_read", SearchBody(q))]
      + if reply.ok && Paging.Ambiguous(reply.matches, Paging.EffectiveLimit(q.limit), q.offset)
        then [Request(model, "search_count", map["domain" := Json(q.domain)])] else []
  }

  /** The requests of a call that passes the guards. */
  function Wanted(c: ToolCall, reply: Reply): seq<Request>
    requires WellFormed(c)
  {
    match c
    case SearchRead(model, query) => SearchRequests(model, query.value, reply)
    case Read(model, ids, fields) =>
      [Request(model, "read", map["ids" := Ids(ids.value)] + NamesBody("fields", fields.value))]
    case FieldsGet(model, attributes) => [Request(model, "fields_get", NamesBody("attributes", attributes.value))]
    case ListModels(_) => [Request("ir.model", "search_read",
      map["domain" := Json("[]"), "fields" := Names(["name", "model", "info", "transient"])])]
    case ServerInfo => ServerInfoRequests(reply)
    case Create(model, values) => [Request(model, "create", map["vals_list" := List([values.value])])]
    case Write(model, ids, values) => [Request(model, "write", map["ids" := Ids(ids.value), "vals" := values.value])]
    case Unlink(model, ids) => [Request(model, "unlink", map["ids" := Ids(ids.value)])]
    case Call(model, operation, ids, kwargs) => [Request(model, operation, CallBody(ids.value, kwargs.value))]
    case MessagePost(_, _, _, _, _) => MessageRequests(c, reply.subtype)
  }

  function Sends(p: Policy, admitted: bool, c: ToolCall, reply: Reply): seq<Request> {
    if Passes(p, admitted, c) then Wanted(c, reply) else []
  }

  /** The page that a search returns, with its notice. */
  function Found(q: Query, reply: Reply): Result {
    var limit := Paging.EffectiveLimit(q.limit);
    Listed(Paging.Page(reply.matches, limit, q.offset), Paging.NoticeFor(reply.matches, limit, q.offset, reply.counts))
  }

  /** The names that contain the filter, in their order; the empty filter is contained in all. */
  function Filtered(names: seq<string>, filter: string): seq<string> {
    if names == [] then []
    else
      var last := names[|names| - 1];
      Filtered(names[..|names| - 1], filter) + if Contains(last, filter) then [last] else []
  }

  lemma {:induction false} EmptyFilterKeepsAll(names: seq<string>)
    ensures Filtered(names, "") == names
  {
    if names != [] {
      EmptyFilterKeepsAll(names[..|names| - 1]);
      assert OccursAt(names[|names| - 1], "", 0);
    }
  }

  function Answered(c: ToolCall, reply: Reply): Result
    requires WellFormed(c)
  {
    if !reply.ok then ToolError(OdooFailed)
    else if c.SearchRead? then Found(c.query.value, reply)
    else if c.ListModels? then Models(Filtered(reply.models, c.filter))
    else Done
  }

  function Outcome(p: Policy, admitted: bool, c: ToolCall, reply: Reply): Result {
    var refusal := Refusal(p, admitted, c);
    if refusal.Some? then ToolError(refusal.value)
    else
      RefusedIffNotPassing(p, admitted, c);
      Answered(c, reply)
  }

  // The handlers as they run.

  /** The rate checks of one call. */
  function ChecksOf(v: Invocation): seq<Event> {
    if ConsultsRate(v.call) then [Event(v.session, v.at)] else []
  }

  /** Whether the last call of a history of rate checks is let through by the rate checker. */
  predicate Admitted(v: Invocation, ds: seq<bool>) {
    ConsultsRate(v.call) && ds != [] && ds[|ds| - 1]
  }

  class Guardrails {
    const blocked: set<string>
    const readOnly: bool
    const limiter: RateLimiter
    ghost var checks: seq<Event>
    ghost var verdicts: seq<bool>
    ghost var repr: set<object>

    function Rules(): Policy {
      Policy(blocked, readOnly)
    }

    /** So far the limiter served `checks`, and answered `verdicts`. */
    ghost predicate Valid()
      reads this, repr
    {
      && this !in repr && limiter in repr && limiter.buckets.Values <= repr
      && limiter.Valid() && limiter.history == checks
      && RightVerdicts(limiter.rps, checks, verdicts)
    }

    constructor (policy: Policy, limiter: RateLimiter)
      requires limiter.Valid() && limiter.history == []
      ensures Valid() && Rules() == policy && this.limiter == limiter && checks == []
      ensures repr == {limiter} + limiter.buckets.Values
    {
      blocked, readOnly, this.limiter := policy.blocked, policy.readOnly, limiter;
      checks, verdicts := [], [];
      repr := {limiter} + limiter.buckets.Values;
    }

    method CheckRate(session: string, now: real) returns (ok: bool)
      requires Valid() && (checks == [] || checks[|checks| - 1].at <= now)
      modifies this, repr
      ensures Valid() && fresh(repr - old(repr))
      ensures checks == old(checks) + [Event(session, now)] && verdicts == old(verdicts) + [ok]
    {
      var v := limiter.Check(session, now);
      ok := v == Allowed;
      OneMoreVerdict(limiter.rps, checks, verdicts, Event(session, now), ok);
      checks, verdicts := limiter.history, verdicts + [ok];
      repr := repr + limiter.buckets.Values;
    }

    method CheckModel(model: string) returns (ok: bool)
      ensures ok <==> model !in blocked
    {
      ok := model !in blocked;
    }

    method CheckWrite() returns (ok: bool)
      ensures ok <==> !readOnly
    {
      ok := !readOnly;
    }

    /** The checks that stand in front of every request to Odoo; a tool without a model skips CheckModel. */
    method Check(v: Invocation, model: Option<string>, mutates: bool) returns (why: Option<Why>)
      requires Valid() && (checks == [] || checks[|checks| - 1].at <= v.at)
      modifies this, repr
      ensures Valid() && fresh(repr - old(repr))
      ensures checks == old(checks) + [Event(v.session, v.at)] && |verdicts| == |checks|
      ensures why == Guarded(Rules(), verdicts[|verdicts| - 1], model, mutates)
    {
      var ok := CheckRate(v.session, v.at);
      if !ok {
        return Some(RateExceeded);
      }
      if model.Some? {
        ok := CheckModel(model.value);
        if !ok {
          return Some(ModelBlocked);
        }
      }
      if mutates {
        ok := CheckWrite();
        if !ok {
          return Some(ReadOnly);
        }
      }
      why := None;
    }
  }

  /** The merge loop: every keyword argument goes over what is there. */
  method Merge(start: map<string, Value>, kwargs: map<string, Value>) returns (body: map<string, Value>)
    ensures body == start + kwargs
  {
    body := start;
    var rest := kwargs.Keys;
    while rest != {}
      invariant rest <= kwargs.Keys
      invariant body.Keys == start.Keys + (kwargs.Keys - rest)
      invariant forall k | k in body :: body[k] == if k in kwargs && k !in rest then kwargs[k] else start[k]
      decreases |rest|
    {
      var k :| k in rest;
      body := body[k := kwargs[k]];
      rest := rest - {k};
    }
  }

  /** The ids of a call come first, and its keyword arguments override them. */
  method MergeBody(ids: seq<int>, kwargs: map<string, Value>) returns (body: map<string, Value>)
    ensures body == CallBody(ids, kwargs)
  {
    body := map[];
    if ids != [] {
      body := body["ids" := Ids(ids)];
    }
    body := Merge(body, kwargs);
  }

  class Client {
    var sent: seq<Request>

    constructor ()
      ensures sent == []
    {
      sent := [];
    }

    method Post(r: Request)
      modifies this
      ensures sent == old(sent) + [r]
    {
      sent := sent + [r];
    }

    /** SearchRead of the HTTP client: the body is filled by conditional assignment. */
    method PostSearch(model: string, q: Query, limit: int)
      requires limit == Paging.EffectiveLimit(q.limit)
      modifies this
      ensures sent == old(sent) + [Request(model, "search_read", SearchBody(q))]
    {
      var body := map["domain" := Json(q.domain)];
      if |q.fields| > 0 {
        body := body["fields" := Names(q.fields)];
      }
      if limit > 0 {
        body := body["limit" := Num(limit)];
      }
      if q.offset > 0 {
        body := body["offset" := Num(q.offset)];
      }
      if q.order != "" {
        body := body["order" := Text(q.order)];
      }
      Post(Request(model, "search_read", body));
    }

    method PostCall(model: string, operation: string, ids: seq<int>, kwargs: map<string, Value>)
      modifies this
      ensures sent == old(sent) + [Request(model, operation, CallBody(ids, kwargs))]
    {
      var body := MergeBody(ids, kwargs);
      Post(Request(model, operation, body));
    }

    /** ServerInfo of the HTTP client: the second request is sent once the first tells a uid. */
    method PostServerInfo(reply: Reply)
      modifies this
      ensures sent == old(sent) + ServerInfoRequests(reply)
    {
      Post(CONTEXT_GET);
      if reply.ok && reply.uid > 0 {
        Post(Request("res.users", "read", map["ids" := Ids([reply.uid]), "fields" := Names(["login", "name"])]));
      }
    }
  }

  /** The backward scan for the last dot. */
  method FindDot(xmlid: string) returns (dot: int)
    ensures dot == LastDot(xmlid)
  {
    dot := |xmlid| - 1;
    while dot >= 0
      invariant -1 <= dot < |xmlid|
      invariant forall j | dot < j < |xmlid| :: xmlid[j] != '.'
    {
      if xmlid[dot] == '.' {
        break;
      }
      dot := dot - 1;
    }
    var last := LastDot(xmlid);
    assert last >= 0 ==> xmlid[last] == '.';
  }

  /** The last dot separates the module from the name; `found` is the id that the lookup finds, or None when it fails. */
  method ResolveSubtype(client: Client, xmlid: string, found: Option<int>) returns (id: int)
    modifies client
    ensures client.sent == old(client.sent) + SubtypeLookups(xmlid)
    ensures id == SubtypeId(xmlid, found)
  {
    var dot := FindDot(xmlid);
    if dot <= 0 {
      return 1;
    }
    client.Post(SubtypeLookup(xmlid[..dot], xmlid[dot + 1..]));
    id := if found.Some? then found.value else 1;
  }

  method Defaulted(given: string, default: string) returns (s: string)
    ensures s == OrDefault(given, default)
  {
    s := given;
    if s == "" {
      s := default;
    }
  }

  method PostMessage(client: Client, c: ToolCall, reply: Reply)
    requires c.MessagePost? && WellFormed(c)
    modifies client
    ensures client.sent == old(client.sent) + Wanted(c, reply)
  {
    var messageType := Defaulted(c.messageType, "comment");
    var subtypeXmlid := Defaulted(c.subtypeXmlid, "mail.mt_comment");
    var subtypeID := ResolveSubtype(client, subtypeXmlid, reply.subtype);
    var vals := MessageVals(c.body, messageType, c.model, c.recordID, subtypeID);
    client.Post(Request("mail.message", "create", map["vals_list" := List([vals])]));
  }

  /** The search, the count when the page is exactly full, and the notice. */
  method Search(client: Client, model: string, q: Query, reply: Reply) returns (r: Result)
    modifies client
    ensures client.sent == old(client.sent) + SearchRequests(model, q, reply)
    ensures r == if reply.ok then Found(q, reply) else ToolError(OdooFailed)
  {
    client.PostSearch(model, q, Paging.EffectiveLimit(q.limit));
    if !reply.ok {
      return ToolError(OdooFailed);
    }
    var count := if reply.counts then Some(|reply.matches|) else None;
    var records, notice, counted := Paging.SearchAndRead(q.limit, q.offset, reply.matches, count);
    if counted {
      client.Post(Request(model, "search_count", map["domain" := Json(q.domain)]));
    }
    return Listed(records, notice);
  }

  /** What a handler owes: its rate check, exactly the wanted requests, and the right answer. */
  ghost predicate Handled(g: Guardrails, client: Client, checks: seq<Event>, sent: seq<Request>, v: Invocation, r: Result)
    reads g, client
  {
    && g.checks == checks + ChecksOf(v)
    && client.sent == sent + Sends(g.Rules(), Admitted(v, g.verdicts), v.call, v.reply)
    && r == Outcome(g.Rules(), Admitted(v, g.verdicts), v.call, v.reply)
  }

  ghost predicate Ready(g: Guardrails, client: Client, v: Invocation)
    reads g, g.repr
  {
    g.Valid() && client !in g.repr && (g.checks == [] || g.checks[|g.checks| - 1].at <= v.at)
  }

  method HandleSearchRead(g: Guardrails, client: Client, v: Invocation) returns (r: Result)
    requires Ready(g, client, v) && v.call.SearchRead?
    modifies g, g.repr, client
    ensures g.Valid() && client !in g.repr && fresh(g.repr - old(g.repr))
    ensures Handled(g, client, old(g.checks), old(client.sent), v, r)
  {
    var c := v.call;
    if c.query.None? {
      return ToolError(BadInput);
    }
    var why := g.Check(v, Some(c.model), false);
    if why.Some? {
      return ToolError(why.value);
    }
    var q := c.query.value;
    r := Search(client, c.model, q, v.reply);
  }

  method HandleRead(g: Guardrails, client: Client, v: Invocation) returns (r: Result)
    requires Ready(g, client, v) && v.call.Read?
    modifies g, g.repr, client
    ensures g.Valid() && client !in g.repr && fresh(g.repr - old(g.repr))
    ensures Handled(g, client, old(g.checks), old(client.sent), v, r)
  {
    var c := v.call;
    if c.ids.None? {
      return ToolError(BadInput);
    }
    if c.fields.None? {
      return ToolError(BadInput);
    }
    var why := g.Check(v, Some(c.model), false);
    if why.Some? {
      return ToolError(why.value);
    }
    client.Post(Request(c.model, "read", map["ids" := Ids(c.ids.value)] + NamesBody("fields", c.fields.value)));
    r := if v.reply.ok then Done else ToolError(OdooFailed);
  }

  method HandleFieldsGet(g: Guardrails, client: Client, v: Invocation) returns (r: Result)
    requires Ready(g, client, v) && v.call.FieldsGet?
    modifies g, g.repr, client
    ensures g.Valid() && client !in g.repr && fresh(g.repr - old(g.repr))
    ensures Handled(g, client, old(g.checks), old(client.sent), v, r)
  {
    var c := v.call;
    if c.attributes.None? {
      return ToolError(BadInput);
    }
    var why := g.Check(v, Some(c.model), false);
    if why.Some? {
      return ToolError(why.value);
    }
    client.Post(Request(c.model, "fields_get", NamesBody("attributes", c.attributes.value)));
    r := if v.reply.ok then Done else ToolError(OdooFailed);
  }

  method ModelNames(models: seq<string>, filter: string) returns (names: seq<string>)
    ensures names == Filtered(models, filter)
  {
    names := models;
    if filter != "" {
      names := [];
      for i := 0 to |models|
        invariant names == Filtered(models[..i], filter)
      {
        assert models[..i + 1][..i] == models[..i];
        if Contains(models[i], filter) {
          names := names + [models[i]];
        }
      }
      assert models[..|models|] == models;
    } else {
      EmptyFilterKeepsAll(models);
    }
  }

  method HandleListModels(g: Guardrails, client: Client, v: Invocation) returns (r: Result)
    requires Ready(g, client, v) && v.call.ListModels?
    modifies g, g.repr, client
    ensures g.Valid() && client !in g.repr && fresh(g.repr - old(g.repr))
    ensures Handled(g, client, old(g.checks), old(client.sent), v, r)
  {
    var c := v.call;
    var why := g.Check(v, None, false);
    if why.Some? {
      return ToolError(why.value);
    }
    client.Post(Request("ir.model", "search_read",
      map["domain" := Json("[]"), "fields" := Names(["name", "model", "info", "transient"])]));
    if !v.reply.ok {
      return ToolError(OdooFailed);
    }
    var names := ModelNames(v.reply.models, c.filter);
    return Models(names);
  }

  method HandleServerInfo(g: Guardrails, client: Client, v: Invocation) returns (r: Result)
    requires Ready(g, client, v) && v.call.ServerInfo?
    modifies g, g.repr, client
    ensures g.Valid() && client !in g.repr && fresh(g.repr - old(g.repr))
    ensures Handled(g, client, old(g.checks), old(client.sent), v, r)
  {
    var c := v.call;
    var why := g.Check(v, None, false);
    if why.Some? {
      return ToolError(why.value);
    }
    client.PostServerInfo(v.reply);
    r := if v.reply.ok then Done else ToolError(OdooFailed);
  }

  method HandleCreate(g: Guardrails, client: Client, v: Invocation) returns (r: Result)
    requires Ready(g, client, v) && v.call.Create?
    modifies g, g.repr, client
    ensures g.Valid() && client !in g.repr && fresh(g.repr - old(g.repr))
    ensures Handled(g, client, old(g.checks), old(client.sent), v, r)
  {
    var c := v.call;
    var why := g.Check(v, Some(c.model), true);
    if why.Some? {
      return ToolError(why.value);
    }
    if c.values.None? {
      return ToolError(BadInput);
    }
    client.Post(Request(c.model, "create", map["vals_list" := List([c.values.value])]));
    r := if v.reply.ok then Done else ToolError(OdooFailed);
  }

  method HandleWrite(g: Guardrails, client: Client, v: Invocation) returns (r: Result)
    requires Ready(g, client, v) && v.call.Write?
    modifies g, g.repr, client
    ensures g.Valid() && client !in g.repr && fresh(g.repr - old(g.repr))
    ensures Handled(g, client, old(g.checks), old(client.sent), v, r)
  {
    var c := v.call;
    var why := g.Check(v, Some(c.model), true);
    if why.Some? {
      return ToolError(why.value);
    }
    if c.ids.None? {
      return ToolError(BadInput);
    }
    if c.values.None? {
      return ToolError(BadInput);
    }
    client.Post(Request(c.model, "write", map["ids" := Ids(c.ids.value), "vals" := c.values.value]));
    r := if v.reply.ok then Done else ToolError(OdooFailed);
  }

  method HandleUnlink(g: Guardrails, client: Client, v: Invocation) returns (r: Result)
    requires Ready(g, client, v) && v.call.Unlink?
    modifies g, g.repr, client
    ensures g.Valid() && client !in g.repr && fresh(g.repr - old(g.repr))
    ensures Handled(g, client, old(g.checks), old(client.sent), v, r)
  {
    var c := v.call;
    var why := g.Check(v, Some(c.model), true);
    if why.Some? {
      return ToolError(why.value);
    }
    if c.ids.None? {
      return ToolError(BadInput);
    }
    if c.ids.value == [] {
      return ToolError(BadInput);
    }
    client.Post(Request(c.model, "unlink", map["ids" := Ids(c.ids.value)]));
    r := if v.reply.ok then Done else ToolError(OdooFailed);
  }

  method HandleCall(g: Guardrails, client: Client, v: Invocation) returns (r: Result)
    requires Ready(g, client, v) && v.call.Call?
    modifies g, g.repr, client
    ensures g.Valid() && client !in g.repr && fresh(g.repr - old(g.repr))
    ensures Handled(g, client, old(g.checks), old(client.sent), v, r)
  {
    var c := v.call;
    if c.ids.None? {
      return ToolError(BadInput);
    }
    if c.kwargs.None? {
      return ToolError(BadInput);
    }
    var why := g.Check(v, Some(c.model), c.operation !in READ_ONLY_METHODS);
    if why.Some? {
      return ToolError(why.value);
    }
    client.PostCall(c.model, c.operation, c.ids.value, c.kwargs.value);
    r := if v.reply.ok then Done else ToolError(OdooFailed);
  }

  /** The checks in front of a message: its own, and then the guards. */
  method CheckMessage(g: Guardrails, v: Invocation) returns (why: Option<Why>)
    requires v.call.MessagePost? && g.Valid() && (g.checks == [] || g.checks[|g.checks| - 1].at <= v.at)
    modifies g, g.repr
    ensures g.Valid() && fresh(g.repr - old(g.repr))
    ensures g.checks == old(g.checks) + ChecksOf(v)
    ensures why == Refusal(g.Rules(), Admitted(v, g.verdicts), v.call)
  {
    if v.call.recordID == 0 {
      return Some(BadInput);
    }
    if v.call.body == "" {
      return Some(BadInput);
    }
    why := g.Check(v, Some(v.call.model), true);
  }

  method HandleMessagePost(g: Guardrails, client: Client, v: Invocation) returns (r: Result)
    requires Ready(g, client, v) && v.call.MessagePost?
    modifies g, g.repr, client
    ensures g.Valid() && client !in g.repr && fresh(g.repr - old(g.repr))
    ensures Handled(g, client, old(g.checks), old(client.sent), v, r)
  {
    var why := CheckMessage(g, v);
    RefusedIffNotPassing(g.Rules(), Admitted(v, g.verdicts), v.call);
    if why.Some? {
      return ToolError(why.value);
    }
    PostMessage(client, v.call, v.reply);
    r := if v.reply.ok then Done else ToolError(OdooFailed);
  }

  /** A call goes to the handler that is registered for its tool. */
  method Handle(g: Guardrails, client: Client, v: Invocation) returns (r: Result)
    requires Ready(g, client, v)
    modifies g, g.repr, client
    ensures g.Valid() && client !in g.repr && fresh(g.repr - old(g.repr))
    ensures Handled(g, client, old(g.checks), old(client.sent), v, r)
  {
    match v.call
    case SearchRead(_, _) => r := HandleSearchRead(g, client, v);
    case Read(_, _, _) => r := HandleRead(g, client, v);
    case FieldsGet(_, _) => r := HandleFieldsGet(g, client, v);
    case ListModels(_) => r := HandleListModels(g, client, v);
    case ServerInfo => r := HandleServerInfo(g, client, v);
    case Create(_, _) => r := HandleCreate(g, client, v);
    case Write(_, _, _) => r := HandleWrite(g, client, v);
    case Unlink(_, _) => r := HandleUnlink(g, client, v);
    case Call(_, _, _, _) => r := HandleCall(g, client, v);
    case MessagePost(_, _, _, _, _) => r := HandleMessagePost(g, client, v);
  }
}
