/** From the names of a model and a method to the pair that Odoo serves: the client formats them into a URL. */
module Routing {
  import opened Wrappers
  import opened Crypto

  /** POST {base}/json/2/{model}/{method}: what follows "/json/2/", names unescaped. */
  function Tail(model: string, operation: string): string {
    model + "/" + operation
  }

  /** The position of the first `c`, or the length. */
  function Find(s: string, c: char): (i: nat)
    ensures i <= |s|
    ensures i < |s| ==> s[i] == c
    ensures forall j | 0 <= j < i :: s[j] != c
  {
    if s == "" || s[0] == c then 0 else 1 + Find(s[1..], c)
  }

  predicate IsControl(c: char) {
    c < ' ' || c == '\U{7f}'
  }

  predicate HasControl(s: string) {
    exists i | 0 <= i < |s| :: IsControl(s[i])
  }

  /** Percent-decoding; None for an escape that is not two hex digits. */
  function Unescape(s: string): (t: Option<string>)
    ensures t.Some? ==> |t.value| <= |s|
    ensures t.Some? && |t.value| == |s| ==> t.value == s && '%' !in s
    ensures '%' !in s ==> t == Some(s)
  {
    if s == "" then Some("")
    else if s[0] != '%' then
      var rest := Unescape(s[1..]);
      if rest.Some? then Some([s[0]] + rest.value) else None
    else if |s| < 3 || HexValue(s[1]).None? || HexValue(s[2]).None? then None
    else
      var rest := Unescape(s[3..]);
      if rest.Some? then Some([(16 * HexValue(s[1]).value + HexValue(s[2]).value) as char] + rest.value) else None
  }

  /** The path of a URL: the fragment is never sent, and the query is no part of the path. What is sent must not hold a
      control character, and the fragment must decode. */
  function Path(url: string): (p: Option<string>)
    ensures p.Some? ==> |p.value| <= |url|
    ensures p.Some? && |p.value| == |url| ==> p.value == url && '#' !in url && '?' !in url && '%' !in url
  {
    var sent := url[..Find(url, '#')];
    var fragment := url[Find(url, '#')..];
    if HasControl(sent) || Unescape(fragment).None? then None
    else Unescape(sent[..Find(sent, '?')])
  }

  /** Odoo serves paths of exactly two non-empty segments. */
  function Segments(path: string): Option<(string, string)> {
    var i := Find(path, '/');
    if i == 0 || i + 1 >= |path| || '/' in path[i + 1..] then None
    else Some((path[..i], path[i + 1..]))
  }

  /** The model and method that a request reaches, if any. */
  function Routed(model: string, operation: string): Option<(string, string)> {
    var path := Path(Tail(model, operation));
    if path.Some? then Segments(path.value) else None
  }

  predicate IsPlain(c: char) {
    c != '#' && c != '?' && c != '/' && c != '%' && !IsControl(c)
  }

  /** A name that a URL path carries as it is. */
  predicate Plain(name: string) {
    name != "" && forall i | 0 <= i < |name| :: IsPlain(name[i])
  }

  lemma SegmentsJoin(path: string)
    requires Segments(path).Some?
    ensures var (m, o) := Segments(path).value; path == Tail(m, o) && m != "" && o != "" && '/' !in m && '/' !in o
  {
  }

  lemma TailSegments(model: string, operation: string)
    requires model != "" && operation != "" && '/' !in model && '/' !in operation
    ensures Segments(Tail(model, operation)) == Some((model, operation))
  {
    var t := Tail(model, operation);
    assert t[|model|] == '/' && t[..|model|] == model && t[|model| + 1..] == operation;
    assert Find(t, '/') == |model|;
  }

  lemma PlainTail(model: string, operation: string, c: char)
    requires Plain(model) && Plain(operation)
    requires c == '#' || c == '?' || c == '%'
    ensures c !in Tail(model, operation)
  {
  }

  /** A request reaches what it names exactly when both names are plain. */
  lemma RoutedAsNamed(model: string, operation: string)
    ensures Routed(model, operation) == Some((model, operation)) <==> Plain(model) && Plain(operation)
  {
    var t := Tail(model, operation);
    if Routed(model, operation) == Some((model, operation)) {
      var path := Path(t).value;
      SegmentsJoin(path);
      assert |path| == |t|;
      forall i | 0 <= i < |t| && i != |model|
        ensures IsPlain(t[i])
      {
      }
    }
    if Plain(model) && Plain(operation) {
      assert forall i | 0 <= i < |t| :: !IsControl(t[i]);
      PlainTail(model, operation, '#');
      PlainTail(model, operation, '?');
      PlainTail(model, operation, '%');
      assert t[..|t|] == t && t[|t|..] == "";
      TailSegments(model, operation);
    }
  }

  /** A fragment in the model's name keeps the method from being sent, and what stands before it decides both. */
  lemma FragmentIsNotSent(model: string, operation: string, fragment: string, unsent: string)
    requires Plain(model) && Plain(operation) && '%' !in fragment && '%' !in unsent
    ensures Routed(Tail(model, operation) + "#" + fragment, unsent) == Some((model, operation))
  {
    var path := Tail(model, operation);
    var url := Tail(path + "#" + fragment, unsent);
    PlainTail(model, operation, '#');
    PlainTail(model, operation, '?');
    PlainTail(model, operation, '%');
    assert url == path + ("#" + fragment + "/" + unsent);
    assert url[|path|] == '#' && url[..|path|] == path && url[|path|..] == "#" + fragment + "/" + unsent;
    assert forall i | 0 <= i < |path| :: url[i] == path[i];
    assert Find(url, '#') == |path|;
    assert forall i | 0 <= i < |path| :: !IsControl(path[i]);
    assert path[..|path|] == path && '%' !in url[|path|..];
    TailSegments(model, operation);
  }

  /** Nor is a query part of the path. */
  lemma QueryIsNoPath(model: string, operation: string, query: string, unused: string)
    requires Plain(model) && Plain(operation) && '#' !in query && '#' !in unused
    requires !HasControl(query) && !HasControl(unused)
    ensures Routed(Tail(model, operation) + "?" + query, unused) == Some((model, operation))
  {
    var path := Tail(model, operation);
    var url := Tail(path + "?" + query, unused);
    PlainTail(model, operation, '#');
    PlainTail(model, operation, '?');
    PlainTail(model, operation, '%');
    assert url == path + ("?" + query + "/" + unused);
    NoControl(path, "?" + query + "/" + unused);
    assert Find(url, '#') == |url| && url[..|url|] == url && url[|url|..] == "";
    assert url[|path|] == '?' && url[..|path|] == path;
    assert forall i | 0 <= i < |path| :: url[i] == path[i];
    assert Find(url, '?') == |path|;
    TailSegments(model, operation);
  }

  lemma NoControl(s: string, t: string)
    requires !HasControl(s) && !HasControl(t)
    ensures !HasControl(s + t)
  {
    forall i | 0 <= i < |s + t|
      ensures !IsControl((s + t)[i])
    {
      assert (s + t)[i] == if i < |s| then s[i] else t[i - |s|];
    }
  }

  function Prepend(s: string, t: Option<string>): Option<string> {
    if t.Some? then Some(s + t.value) else None
  }

  lemma UnescapeOne(c: char, t: string)
    requires c != '%'
    ensures Unescape([c] + t) == Prepend([c], Unescape(t))
  {
    assert ([c] + t)[1..] == t;
  }

  lemma PrependTwice(c: char, s: string, t: Option<string>)
    ensures Prepend([c], Prepend(s, t)) == Prepend([c] + s, t)
    ensures Prepend("", t) == t
  {
    if t.Some? {
      assert [c] + (s + t.value) == [c] + s + t.value && "" + t.value == t.value;
    }
  }

  lemma {:induction false} UnescapeOn(s: string, t: string)
    requires '%' !in s
    ensures Unescape(s + t) == Prepend(s, Unescape(t))
    decreases |s|
  {
    if s == "" {
      assert s + t == t;
      PrependTwice('x', "", Unescape(t));
    } else {
      var rest := s[1..];
      assert s == [s[0]] + rest && s[0] in s && s + t == [s[0]] + (rest + t);
      UnescapeOn(rest, t);
      UnescapeOne(s[0], rest + t);
      PrependTwice(s[0], rest, Unescape(t));
    }
  }

  /** An escape is decoded before Odoo splits the path: this name reaches the model with a dot. */
  lemma EscapesAreDecoded(head: string, tail: string, operation: string)
    requires Plain(head) && Plain(tail) && Plain(operation)
    ensures Routed(head + "%2E" + tail, operation) == Some((head + "." + tail, operation))
    ensures Routed(head + "%2e" + tail, operation) == Some((head + "." + tail, operation))
  {
    EscapeIsDecoded(head, tail, operation, 'E');
    EscapeIsDecoded(head, tail, operation, 'e');
  }

  /** Nothing is cut off a URL without '#' and '?'. */
  lemma UncutPath(url: string)
    requires '#' !in url && '?' !in url && !HasControl(url)
    ensures Path(url) == Unescape(url)
  {
    assert Find(url, '#') == |url| && Find(url, '?') == |url| && url[..|url|] == url && url[|url|..] == "";
  }

  lemma DotIsUnescaped(digit: char, rest: string)
    requires '%' !in rest && (digit == 'E' || digit == 'e')
    ensures Unescape(['%', '2', digit] + rest) == Some(['.'] + rest)
  {
    var s := ['%', '2', digit] + rest;
    assert s[3..] == rest && s[0] == '%' && s[1] == '2' && s[2] == digit;
  }

  lemma NothingToCut(head: string, digit: char, rest: string)
    requires Plain(head) && (digit == 'E' || digit == 'e')
    requires '#' !in rest && '?' !in rest && !HasControl(rest)
    ensures var url := head + (['%', '2', digit] + rest); '#' !in url && '?' !in url && !HasControl(url)
  {
    assert !HasControl(head) && !HasControl(['%', '2', digit]);
    NoControl(['%', '2', digit], rest);
    NoControl(head, ['%', '2', digit] + rest);
  }

  lemma EscapedPath(head: string, digit: char, rest: string)
    requires Plain(head) && (digit == 'E' || digit == 'e')
    requires '#' !in rest && '?' !in rest && '%' !in rest && !HasControl(rest)
    ensures Path(head + (['%', '2', digit] + rest)) == Some(head + (['.'] + rest))
  {
    NothingToCut(head, digit, rest);
    UncutPath(head + (['%', '2', digit] + rest));
    DotIsUnescaped(digit, rest);
    UnescapeOn(head, ['%', '2', digit] + rest);
  }

  lemma PlainRest(model: string, operation: string)
    requires Plain(model) && Plain(operation)
    ensures var rest := Tail(model, operation); '#' !in rest && '?' !in rest && '%' !in rest && !HasControl(rest)
  {
    PlainTail(model, operation, '%');
    PlainTail(model, operation, '#');
    PlainTail(model, operation, '?');
  }

  lemma DottedSegments(head: string, tail: string, operation: string)
    requires Plain(head) && Plain(tail) && Plain(operation)
    ensures Segments(Tail(head + "." + tail, operation)) == Some((head + "." + tail, operation))
  {
    TailSegments(head + "." + tail, operation);
  }

  lemma TailSplits(head: string, mid: string, tail: string, operation: string)
    ensures Tail(head + mid + tail, operation) == head + (mid + Tail(tail, operation))
  {
  }

  lemma RoutedBy(model: string, operation: string, path: string, to: (string, string))
    requires Path(Tail(model, operation)) == Some(path) && Segments(path) == Some(to)
    ensures Routed(model, operation) == Some(to)
  {
  }

  lemma EscapeIsDecoded(head: string, tail: string, operation: string, digit: char)
    requires Plain(head) && Plain(tail) && Plain(operation) && (digit == 'E' || digit == 'e')
    ensures Routed(head + ['%', '2', digit] + tail, operation) == Some((head + "." + tail, operation))
  {
    var name := head + "." + tail;
    PlainRest(tail, operation);
    EscapedPath(head, digit, Tail(tail, operation));
    DottedSegments(head, tail, operation);
    TailSplits(head, ['%', '2', digit], tail, operation);
    TailSplits(head, ".", tail, operation);
    RoutedBy(head + ['%', '2', digit] + tail, operation, Tail(name, operation), (name, operation));
  }

  /** A further slash leads nowhere. */
  lemma SlashIsNotServed(head: string, tail: string, operation: string)
    requires Plain(head) && Plain(tail) && Plain(operation)
    ensures Routed(head + "/" + tail, operation) == None
  {
    var url := Tail(head + "/" + tail, operation);
    assert url == Tail(head, Tail(tail, operation));
    assert forall i | 0 <= i < |url| :: url[i] != '#' && url[i] != '?' && url[i] != '%' && !IsControl(url[i]);
    UncutPath(url);
    assert url[|head|] == '/' && Find(url, '/') == |head| && url[|head| + 1..] == Tail(tail, operation);
    assert Tail(tail, operation)[|tail|] == '/';
  }
}
