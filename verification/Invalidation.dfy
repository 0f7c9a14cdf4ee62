/** ValkeyClient.Invalidate: collect a user's keys with a SCAN cursor loop, then delete them. */
module Invalidation {
  import opened Keys

  type Store = map<string, string>

  /** What one SCAN command answers; `kept` are the keys that stayed in the keyspace ever since the page before, or
      that were there, for the first page. */
  datatype ScanReply = Page(kept: set<string>, elements: seq<string>, cursor: nat) | ScanFailed

  /** How DEL goes; it may have taken effect although its answer is lost. */
  datatype Deletion = Deleted | Failed(applied: bool)

  /** One full iteration: it stops at cursor 0 or at the first failure. */
  predicate Iteration(replies: seq<ScanReply>) {
    && replies != []
    && (forall i | 0 <= i < |replies| - 1 :: replies[i].Page? && replies[i].cursor != 0)
    && (replies[|replies| - 1].Page? ==> replies[|replies| - 1].cursor == 0)
  }

  /** The key was in the keyspace from the first to the last page. */
  ghost predicate Resident(replies: seq<ScanReply>, key: string) {
    forall i | 0 <= i < |replies| :: replies[i].Page? && key in replies[i].kept
  }

  /** SCAN's promise: a page lists only matching keys, in any order and any number of times, and a matching key that
      stays in the keyspace from the first to the last page is listed at least once. */
  ghost predicate ScanPromise(pattern: string, replies: seq<ScanReply>)
    requires '[' !in pattern
  {
    && (forall i, k | 0 <= i < |replies| && replies[i].Page? && k in replies[i].elements :: Matches(pattern, k))
    && (forall k | Resident(replies, k) && Matches(pattern, k) ::
          exists i | 0 <= i < |replies| :: k in replies[i].elements)
  }

  function Without(store: Store, keys: seq<string>): Store {
    map k | k in store && k !in keys :: store[k]
  }

  predicate AllPages(replies: seq<ScanReply>) {
    forall i | 0 <= i < |replies| :: replies[i].Page?
  }

  /** `atDelete` is the store when DEL arrives; other clients may have changed it at any time before. */
  method Invalidate(prefix: string, replies: seq<ScanReply>, atDelete: Store, del: Deletion)
    returns (ok: bool, after: Store)
    requires Literal(prefix) && Iteration(replies) && ScanPromise(prefix + "*", replies)
    ensures ok || del == Failed(true) ==> forall k | Resident(replies, k) && prefix <= k :: k !in after
    ensures forall k | k in atDelete && !(prefix <= k) :: k in after && after[k] == atDelete[k]
    ensures forall k | k in after :: k in atDelete && after[k] == atDelete[k]
    ensures ok ==> AllPages(replies)
    ensures AllPages(replies) && del.Deleted? ==> ok
    ensures !AllPages(replies) || del == Failed(false) ==> after == atDelete
  {
    after := atDelete;
    var cursor := 0;
    var keys: seq<string> := [];
    var i := 0;
    while true
      invariant 0 <= i < |replies|
      invariant after == atDelete
      invariant forall j | 0 <= j < i :: replies[j].Page? && forall k | k in replies[j].elements :: k in keys
      invariant forall k | k in keys :: prefix <= k
      decreases |replies| - i
    {
      var reply := replies[i];
      if reply.ScanFailed? {
        return false, after;
      }
      forall k | k in reply.elements
        ensures prefix <= k
      {
        LiteralGlobIsPrefix(prefix, k);
      }
      keys := keys + reply.elements;
      cursor := reply.cursor;
      if cursor == 0 {
        break;
      }
      i := i + 1;
    }
    forall k | Resident(replies, k) && prefix <= k
      ensures k in keys
    {
      LiteralGlobIsPrefix(prefix, k);
      var j :| 0 <= j < |replies| && k in replies[j].elements;
      assert j <= i;
    }
    if keys == [] {
      return true, after;
    }
    if del.Deleted? || del.applied {
      after := Without(atDelete, keys);
    }
    ok := del.Deleted?;
  }
}
