/** The registered names of the tools, and why the cache may treat them as it does. */
module ToolNames {
  import opened Tools
  import opened ToolRuns
  import SequentialCache
  import CachedLoad

  function NameOf(c: ToolCall): string {
    match c
    case SearchRead(_, _) => "odoo_search_read"
    case Read(_, _, _) => "odoo_read"
    case FieldsGet(_, _) => "odoo_fields_get"
    case ListModels(_) => "odoo_list_models"
    case ServerInfo => "odoo_get_server_info"
    case Create(_, _) => "odoo_create"
    case Write(_, _, _) => "odoo_write"
    case Unlink(_, _) => "odoo_unlink"
    case Call(_, _, _, _) => "odoo_call"
    case MessagePost(_, _, _, _, _) => "odoo_message_post"
  }

  /** Each tool is in exactly one of the cache's two sets, and the load model resolves for the same ones. */
  lemma EachToolOnce(c: ToolCall)
    ensures NameOf(c) in SequentialCache.READ_ONLY_TOOLS <==> NameOf(c) !in SequentialCache.WRITE_TOOLS
    ensures CachedLoad.ReadTool(c) <==> NameOf(c) in SequentialCache.READ_ONLY_TOOLS
  {
    SequentialCache.SetsAreThose(NameOf(c));
  }

  /** Whatever is cached as a read only reads. */
  lemma CachedToolsRead(p: Policy, admitted: bool, c: ToolCall, reply: Reply)
    requires NameOf(c) in SequentialCache.READ_ONLY_TOOLS
    ensures forall r | r in Sends(p, admitted, c, reply) ::
      || r.operation == "search_read" || r.operation == "search_count" || r.operation == "read"
      || r.operation == "fields_get" || r.operation == "context_get"
  {
    SequentialCache.SetsAreThose(NameOf(c));
  }

  /** Whatever sends a method that is not known to read drops the user's entries. */
  lemma MutatingToolsInvalidate(p: Policy, admitted: bool, c: ToolCall, reply: Reply, r: Request)
    requires r in Sends(p, admitted, c, reply)
    requires r.operation != "search_read" && r.operation != "read" && r.operation != "context_get"
    requires r.operation != "search_count" && r.operation != "fields_get"
    ensures NameOf(c) in SequentialCache.WRITE_TOOLS
  {
    EachToolOnce(c);
    if NameOf(c) in SequentialCache.READ_ONLY_TOOLS {
      CachedToolsRead(p, admitted, c, reply);
    }
  }
}
