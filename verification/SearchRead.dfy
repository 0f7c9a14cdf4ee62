/** odoo_search_read: option omission, the truncation notice, and paging. */
module SearchRead {
  import opened Wrappers

  datatype Notice = Notice(returned: int, total: int, limit: int, offset: int)

  /** Go's int(x): towards zero. */
  function Trunc(x: real): int {
    if x >= 0.0 then x.Floor else -((-x).Floor)
  }

  /** The options of the request body; values that are not positive are left out. */
  datatype Options = Options(limit: Option<int>, offset: Option<int>)

  function RequestOptions(limit: int, offset: int): Options {
    Options(if limit > 0 then Some(limit) else None, if offset > 0 then Some(offset) else None)
  }

  /** How many matches a request skips. */
  function Skipped(total: nat, options: Options): (n: nat)
    requires options.offset.Some? ==> options.offset.value > 0
    ensures n <= total
  {
    if options.offset.Some? then Min(options.offset.value, total) else 0
  }

  /** Odoo's answer over the list of matches; without a limit, all of them. */
  function Answer<R>(matches: seq<R>, options: Options): seq<R>
    requires options.limit.Some? ==> options.limit.value > 0
    requires options.offset.Some? ==> options.offset.value > 0
  {
    var rest := matches[Skipped(|matches|, options)..];
    if options.limit.Some? then rest[..Min(options.limit.value, |rest|)] else rest
  }

  /** The part of the matches that limit and offset select. */
  function Page<R>(matches: seq<R>, limit: int, offset: int): seq<R> {
    Answer(matches, RequestOptions(limit, offset))
  }

  function EffectiveLimit(limit: Option<real>): int {
    if limit.Some? then Trunc(limit.value) else 10
  }

  /** A page that is exactly full may or may not be everything. */
  predicate Ambiguous<R>(matches: seq<R>, limit: int, offset: int) {
    limit > 0 && |Page(matches, limit, offset)| == limit
  }

  /** The notice of a page, given whether search_count works. */
  function NoticeFor<R>(matches: seq<R>, limit: int, offset: int, counts: bool): Option<Notice> {
    var returned := |Page(matches, limit, offset)|;
    if counts && Ambiguous(matches, limit, offset) && returned < |matches|
    then Some(Notice(returned, |matches|, limit, offset)) else None
  }

  /** The handler past its guards. `count` is what search_count reports, or None when it fails; the matches do not
      change between the two requests. `counted` tells whether search_count is sent at all. */
  method SearchAndRead<R>(limitArg: Option<real>, offset: int, matches: seq<R>, count: Option<int>)
    returns (records: seq<R>, notice: Option<Notice>, counted: bool)
    requires count.Some? ==> count.value == |matches|
    ensures records == Page(matches, EffectiveLimit(limitArg), offset)
    ensures notice == NoticeFor(matches, EffectiveLimit(limitArg), offset, count.Some?)
    ensures counted <==> Ambiguous(matches, EffectiveLimit(limitArg), offset)
  {
    var limit := 10;
    if limitArg.Some? {
      limit := Trunc(limitArg.value);
    }
    records, notice, counted := Answer(matches, RequestOptions(limit, offset)), None, false;
    if limit > 0 && |records| == limit {
      counted := true;
      if count.Some? && count.value > |records| {
        notice := Some(Notice(|records|, count.value, limit, offset));
      }
    }
  }

  /** A page is a contiguous part of the matches. A notice means it is a strict part and counts all matches; no notice
      after a count that works means it is all of them exactly when no positive offset skipped anything. */
  lemma NoticeMeansTruncated<R>(matches: seq<R>, limit: int, offset: int)
    ensures var records := Page(matches, limit, offset);
      var start := Skipped(|matches|, RequestOptions(limit, offset));
      start + |records| <= |matches| && matches[start..start + |records|] == records
    ensures var records := Page(matches, limit, offset);
      match NoticeFor(matches, limit, offset, true)
      case Some(notice) => records != matches && notice.returned == |records| < notice.total == |matches|
      case None => records == matches <==> offset <= 0 || matches == []
  {
  }

  /** Without a limit argument the limit is 10; a given one is cut towards zero. */
  lemma LimitArgument(x: real)
    ensures EffectiveLimit(None) == 10
    ensures var n := EffectiveLimit(Some(x));
      if x >= 0.0 then n >= 0 && n as real <= x < (n + 1) as real else n <= 0 && (n - 1) as real < x <= n as real
  {
  }

  /** A page is cut from the list as its limit and offset say; no limit means all of the rest. */
  lemma PageIsCut<R>(matches: seq<R>, limit: int, offset: int)
    ensures var start := if offset <= 0 then 0 else if offset <= |matches| then offset else |matches|;
      var end := if limit > 0 && start + limit <= |matches| then start + limit else |matches|;
      Page(matches, limit, offset) == matches[start..end]
  {
  }

  /** A notice tells how many were returned and matched, and under which limit and offset. */
  lemma NoticeSays<R>(matches: seq<R>, limit: int, offset: int, counts: bool)
    ensures NoticeFor(matches, limit, offset, counts) ==
      if counts && limit > 0 && |Page(matches, limit, offset)| == limit < |matches|
      then Some(Notice(limit, |matches|, limit, offset)) else None
  {
  }

  /** Pages at offset, offset + limit, ... until a short one. */
  function Collect<R>(matches: seq<R>, limit: int, offset: nat): seq<R>
    requires limit > 0
    decreases |matches| - offset
  {
    var page := Page(matches, limit, offset);
    if |page| < limit then page else page + Collect(matches, limit, offset + limit)
  }

  lemma {:induction false} PagesFrom<R>(matches: seq<R>, limit: int, offset: nat)
    requires limit > 0 && offset <= |matches|
    ensures Collect(matches, limit, offset) == matches[offset..]
    decreases |matches| - offset
  {
    var page := Page(matches, limit, offset);
    if |page| == limit {
      PagesFrom(matches, limit, offset + limit);
      assert page == matches[offset..offset + limit];
    } else {
      assert page == matches[offset..];
    }
  }

  /** Paging by offset rebuilds the whole match list. */
  lemma PagingRebuildsAll<R>(matches: seq<R>, limit: int)
    requires limit > 0
    ensures Collect(matches, limit, 0) == matches
  {
    PagesFrom(matches, limit, 0);
  }
}
