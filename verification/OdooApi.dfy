/** What Odoo makes of a request: the keys of a body are the named arguments of the method, and a missing or an unknown
    one is rejected. */
module OdooApi {
  import opened Wrappers
  import opened Tools
  import Paging = SearchRead

  /** What Odoo executes. */
  datatype Execution =
    | Searches(model: string, domain: string, fields: seq<string>, limit: Option<int>, offset: int, order: string)
    | Counts(model: string, domain: string)
    | ReadsIds(model: string, ids: seq<int>, fields: seq<string>)
    | Describes(model: string, attributes: seq<string>)
    | Creates(model: string, records: seq<Value>)
    | Writes(model: string, ids: seq<int>, values: Value)
    | Deletes(model: string, ids: seq<int>)
    | TellsContext
    | FindsSubtype(space: string, name: string)
    | Rejected

  function NamesAt(body: map<string, Value>, key: string): Option<seq<string>> {
    if key !in body then Some([]) else if body[key].Names? then Some(body[key].names) else None
  }

  function NumAt(body: map<string, Value>, key: string): Option<int> {
    if key in body && body[key].Num? then Some(body[key].n) else None
  }

  function TextAt(body: map<string, Value>, key: string): Option<string> {
    if key in body && body[key].Text? then Some(body[key].text) else None
  }

  /** search_read(domain, fields, offset, limit, order); without a limit, all matches. */
  function ExecuteSearch(r: Request): Execution {
    var body := r.body;
    if !(body.Keys <= {"domain", "fields", "limit", "offset", "order"}) || "domain" !in body || !body["domain"].Json?
       || NamesAt(body, "fields").None? then Rejected
    else
      var offset, order := NumAt(body, "offset"), TextAt(body, "order");
      Searches(r.model, body["domain"].json, NamesAt(body, "fields").value, NumAt(body, "limit"),
               if offset.Some? then offset.value else 0, if order.Some? then order.value else "")
  }

  function ExecuteRead(r: Request): Execution {
    var body := r.body;
    if !(body.Keys <= {"ids", "fields"}) || "ids" !in body || !body["ids"].Ids? || NamesAt(body, "fields").None?
    then Rejected else ReadsIds(r.model, body["ids"].ids, NamesAt(body, "fields").value)
  }

  /** write(self, vals). */
  function ExecuteWrite(r: Request): Execution {
    if r.body.Keys != {"ids", "vals"} || !r.body["ids"].Ids? then Rejected
    else Writes(r.model, r.body["ids"].ids, r.body["vals"])
  }

  /** create(self, vals_list). */
  function ExecuteCreate(r: Request): Execution {
    if r.body.Keys != {"vals_list"} || !r.body["vals_list"].List? then Rejected
    else Creates(r.model, r.body["vals_list"].items)
  }

  function ExecuteUnlink(r: Request): Execution {
    if r.body.Keys != {"ids"} || !r.body["ids"].Ids? then Rejected else Deletes(r.model, r.body["ids"].ids)
  }

  function ExecuteCount(r: Request): Execution {
    if r.body.Keys != {"domain"} || !r.body["domain"].Json? then Rejected else Counts(r.model, r.body["domain"].json)
  }

  function ExecuteFields(r: Request): Execution {
    if !(r.body.Keys <= {"attributes"}) || NamesAt(r.body, "attributes").None? then Rejected
    else Describes(r.model, NamesAt(r.body, "attributes").value)
  }

  // What each tool makes Odoo execute.

  lemma SearchIsExecuted(model: string, q: Query, reply: Reply)
    ensures var rs := Wanted(SearchRead(model, Some(q)), reply);
      var limit := if q.limit.None? then 10 else Paging.Trunc(q.limit.value);
      && rs[0].operation == "search_read"
      && ExecuteSearch(rs[0]) == Searches(model, q.domain, q.fields, if limit > 0 then Some(limit) else None,
                                          if q.offset > 0 then q.offset else 0, q.order)
      && (|rs| == 1 || (|rs| == 2 && rs[1].operation == "search_count" && ExecuteCount(rs[1]) == Counts(model, q.domain)))
  {
  }

  /** A search answers with the cut that its limit and offset ask for, and with a notice exactly when the page is full,
      the count works and there are more matches. */
  lemma SearchIsAnswered(model: string, q: Query, reply: Reply)
    requires reply.ok
    ensures var limit := if q.limit.None? then 10 else Paging.Trunc(q.limit.value); var total := |reply.matches|;
      var start := if q.offset <= 0 then 0 else if q.offset <= total then q.offset else total;
      var end := if limit > 0 && start + limit <= total then start + limit else total;
      Answered(SearchRead(model, Some(q)), reply) == Listed(reply.matches[start..end],
        if reply.counts && limit > 0 && end - start == limit < total
        then Some(Paging.Notice(limit, total, limit, q.offset)) else None)
  {
    var limit := if q.limit.None? then 10 else Paging.Trunc(q.limit.value);
    Paging.PageIsCut(reply.matches, limit, q.offset);
    Paging.NoticeSays(reply.matches, limit, q.offset, reply.counts);
  }

  /** list_models keeps the names that contain the filter, as often as they come, and in their order. */
  lemma {:induction false} FilterKeeps(names: seq<string>, filter: string, name: string)
    ensures multiset(Filtered(names, filter))[name] == if Contains(name, filter) then multiset(names)[name] else 0
  {
    if names != [] {
      FilterKeeps(names[..|names| - 1], filter, name);
      assert names == names[..|names| - 1] + [names[|names| - 1]];
    }
  }

  lemma {:induction false} FilterInOrder(names: seq<string>, more: seq<string>, filter: string)
    ensures Filtered(names + more, filter) == Filtered(names, filter) + Filtered(more, filter)
    decreases |more|
  {
    if more == [] {
      assert names + more == names;
    } else {
      var init, last := more[..|more| - 1], more[|more| - 1];
      FilterInOrder(names, init, filter);
      assert (names + more)[..|names + more| - 1] == names + init && (names + more)[|names + more| - 1] == last;
    }
  }

  /** A failure of the main request is an error of the tool, and its success is none. */
  lemma FailureIsReported(c: ToolCall, reply: Reply)
    requires WellFormed(c)
    ensures Answered(c, reply) == ToolError(OdooFailed) <==> !reply.ok
    ensures Answered(c, reply).ToolError? <==> !reply.ok
  {
  }

  lemma ReadIsExecuted(model: string, ids: seq<int>, fields: seq<string>, reply: Reply)
    ensures var rs := Wanted(Read(model, Some(ids), Some(fields)), reply);
      |rs| == 1 && rs[0].operation == "read" && ExecuteRead(rs[0]) == ReadsIds(model, ids, fields)
  {
  }

  lemma FieldsGetIsExecuted(model: string, attributes: seq<string>, reply: Reply)
    ensures var rs := Wanted(FieldsGet(model, Some(attributes)), reply);
      |rs| == 1 && rs[0].operation == "fields_get" && ExecuteFields(rs[0]) == Describes(model, attributes)
  {
  }

  lemma ListModelsIsExecuted(filter: string, reply: Reply)
    ensures var rs := Wanted(ListModels(filter), reply);
      && |rs| == 1 && rs[0].operation == "search_read"
      && ExecuteSearch(rs[0]) == Searches("ir.model", "[]", ["name", "model", "info", "transient"], None, 0, "")
  {
  }

  lemma ServerInfoIsExecuted(reply: Reply)
    ensures var rs := Wanted(ServerInfo, reply);
      && |rs| == (if reply.ok && reply.uid > 0 then 2 else 1)
      && rs[0] == Request("res.users", "context_get", map[])
      && (|rs| == 2 ==>
            rs[1].operation == "read" && ExecuteRead(rs[1]) == ReadsIds("res.users", [reply.uid], ["login", "name"]))
  {
  }

  lemma CreateIsExecuted(model: string, values: Value, reply: Reply)
    ensures var rs := Wanted(Create(model, Some(values)), reply);
      |rs| == 1 && rs[0].operation == "create" && ExecuteCreate(rs[0]) == Creates(model, [values])
  {
  }

  lemma WriteIsExecuted(model: string, ids: seq<int>, values: Value, reply: Reply)
    ensures var rs := Wanted(Write(model, Some(ids), Some(values)), reply);
      |rs| == 1 && rs[0].operation == "write" && ExecuteWrite(rs[0]) == Writes(model, ids, values)
  {
  }

  lemma UnlinkIsExecuted(model: string, ids: seq<int>, reply: Reply)
    requires ids != []
    ensures var rs := Wanted(Unlink(model, Some(ids)), reply);
      |rs| == 1 && rs[0].operation == "unlink" && ExecuteUnlink(rs[0]) == Deletes(model, ids)
  {
  }

  /** odoo_call passes every keyword argument, and the ids unless a keyword argument has their name. */
  lemma CallIsPassedOn(model: string, operation: string, ids: seq<int>, kwargs: map<string, Value>, reply: Reply)
    ensures var rs := Wanted(Call(model, operation, Some(ids), Some(kwargs)), reply);
      && |rs| == 1 && rs[0].model == model && rs[0].operation == operation
      && (forall k | k in kwargs :: k in rs[0].body && rs[0].body[k] == kwargs[k])
      && (forall k | k in rs[0].body && k !in kwargs :: k == "ids" && ids != [] && rs[0].body[k] == Ids(ids))
      && (ids != [] && "ids" !in kwargs ==> "ids" in rs[0].body)
  {
  }

  // Messages.

  /** Which subtype a lookup asks for. */
  function ExecuteLookup(r: Request): Execution {
    if r.model != "ir.model.data" || r.operation != "search_read" || r.body.Keys != {"domain", "fields", "limit"}
       || r.body["fields"] != Names(["res_id"]) || r.body["limit"] != Num(1)
       || !r.body["domain"].List? || |r.body["domain"].items| != 3 then Rejected
    else
      match (r.body["domain"].items[0], r.body["domain"].items[1], r.body["domain"].items[2])
      case (List(a), List(b), List(c)) =>
        if |a| == 3 && |b| == 3 && a[0] == Text("module") && a[1] == Text("=") && a[2].Text?
           && b[0] == Text("name") && b[1] == Text("=") && b[2].Text?
           && c == [Text("model"), Text("="), Text("mail.message.subtype")]
        then FindsSubtype(a[2].text, b[2].text) else Rejected
      case _ => Rejected
  }

  lemma LastDotSplits(space: string, name: string)
    requires '.' !in name
    ensures var xmlid := space + "." + name;
      LastDot(xmlid) == |space| && xmlid[..|space|] == space && xmlid[|space| + 1..] == name
  {
    var xmlid := space + "." + name;
    assert xmlid[|space|] == '.';
    assert forall j | |space| < j < |xmlid| :: xmlid[j] == name[j - |space| - 1];
  }

  /** A dotted xmlid is looked up by what stands before and after its last dot. */
  lemma SubtypeIsLookedUp(space: string, name: string, found: Option<int>)
    requires space != "" && '.' !in name
    ensures var rs := SubtypeLookups(space + "." + name);
      |rs| == 1 && ExecuteLookup(rs[0]) == FindsSubtype(space, name)
    ensures SubtypeId(space + "." + name, found) == if found.Some? then found.value else 1
  {
    LastDotSplits(space, name);
    assert SubtypeLookups(space + "." + name) == [SubtypeLookup(space, name)];
  }

  /** Without a module in front of a dot nothing is looked up, and the id is 1. */
  lemma SubtypeIsDefault(xmlid: string, found: Option<int>)
    requires '.' !in xmlid || (xmlid[0] == '.' && '.' !in xmlid[1..])
    ensures SubtypeLookups(xmlid) == [] && SubtypeId(xmlid, found) == 1
  {
    if '.' in xmlid {
      LastDotSplits("", xmlid[1..]);
      assert xmlid == "" + "." + xmlid[1..];
    }
  }

  lemma LastOfMessage(c: ToolCall, subtype: Option<int>)
    requires c.MessagePost?
    ensures var rs := MessageRequests(c, subtype); var xmlid := SubtypeOf(c);
      && rs[..|rs| - 1] == SubtypeLookups(xmlid)
      && rs[|rs| - 1] == Request("mail.message", "create", map["vals_list" := List([MessageVals(
           c.body, OrDefault(c.messageType, "comment"), c.model, c.recordID, SubtypeId(xmlid, subtype))])])
  {
  }

  lemma DefaultSubtype(c: ToolCall)
    requires c.MessagePost?
    ensures SubtypeOf(c) == if c.subtypeXmlid == "" then "mail.mt_comment" else c.subtypeXmlid
  {
  }

  /** A message is created as a record that names its text, type, target and subtype; its last request does so. */
  lemma MessageIsCreated(c: ToolCall, reply: Reply)
    requires c.MessagePost? && WellFormed(c)
    ensures var rs := Wanted(c, reply); var r := rs[|rs| - 1];
      var xmlid := if c.subtypeXmlid == "" then "mail.mt_comment" else c.subtypeXmlid;
      && rs[..|rs| - 1] == SubtypeLookups(xmlid)
      && r.operation == "create" && r.model == "mail.message"
      && ExecuteCreate(r) == Creates("mail.message", [Vals(map[
           "body" := Text(c.body),
           "message_type" := Text(if c.messageType == "" then "comment" else c.messageType),
           "model" := Text(c.model),
           "res_id" := Num(c.recordID),
           "subtype_id" := Num(SubtypeId(xmlid, reply.subtype))])])
  {
    DefaultSubtype(c);
    LastOfMessage(c, reply.subtype);
  }
}
