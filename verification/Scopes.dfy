/** Scope injection of the OAuth broker's /authorize endpoint (scope syntax: section 3.3 of RFC 6749). */
module Scopes {

  /** unicode.IsSpace. */
  predicate IsSpace(c: char) {
    var n := c as int;
    || 0x09 <= n <= 0x0d || n == 0x20 || n == 0x85 || n == 0xa0 || n == 0x1680
    || 0x2000 <= n <= 0x200a || n == 0x2028 || n == 0x2029 || n == 0x202f || n == 0x205f || n == 0x3000
  }

  predicate IsWord(w: string) {
    w != [] && forall i | 0 <= i < |w| :: !IsSpace(w[i])
  }

  /** The length of the leading run without white space. */
  function WordLength(s: string): (n: nat)
    ensures n <= |s|
    ensures forall i | 0 <= i < n :: !IsSpace(s[i])
    ensures n < |s| ==> IsSpace(s[n])
  {
    if s == [] || IsSpace(s[0]) then 0 else 1 + WordLength(s[1..])
  }

  /** strings.Fields. */
  function Fields(s: string): (ws: seq<string>)
    ensures forall w | w in ws :: IsWord(w)
    decreases |s|
  {
    if s == [] then []
    else if IsSpace(s[0]) then Fields(s[1..])
    else
      var n := WordLength(s);
      [s[..n]] + Fields(s[n..])
  }

  lemma FieldsOfWord(w: string)
    requires IsWord(w)
    ensures Fields(w) == [w]
  {
    assert WordLength(w) == |w|;
    assert w[..|w|] == w && w[|w|..] == [];
  }

  lemma FieldsPrepend(w: string, s: string)
    requires IsWord(w)
    ensures Fields(w + " " + s) == [w] + Fields(s)
  {
    var t := w + " " + s;
    assert t[0] == w[0];
    assert forall i | 0 <= i < |w| :: t[i] == w[i];
    assert t[|w|] == ' ';
    assert WordLength(t) == |w|;
    assert t[..|w|] == w && t[|w|..][1..] == s;
  }

  method ContainsScope(scope: string, target: string) returns (found: bool)
    ensures found <==> target in Fields(scope)
  {
    var fields := Fields(scope);
    for i := 0 to |fields|
      invariant target !in fields[..i]
    {
      if fields[i] == target {
        return true;
      }
    }
    assert fields[..|fields|] == fields;
    return false;
  }

  const REQUIRED: seq<string> := ["openid", "email", "profile"]

  /** The required scopes that `have` lacks, the last required one first. */
  function MissingReversed(required: seq<string>, have: seq<string>): seq<string> {
    if required == [] then []
    else (if required[0] in have then MissingReversed(required[1..], have)
          else MissingReversed(required[1..], have) + [required[0]])
  }

  lemma {:induction false} MissingAppend(required: seq<string>, r: string, have: seq<string>)
    ensures MissingReversed(required + [r], have)
         == (if r in have then [] else [r]) + MissingReversed(required, have)
  {
    if required != [] {
      MissingAppend(required[1..], r, have);
      assert (required + [r])[1..] == required[1..] + [r];
    } else {
      assert MissingReversed([r][1..], have) == [];
    }
  }

  lemma {:induction false} MissingIsExact(required: seq<string>, have: seq<string>, w: string)
    ensures w in MissingReversed(required, have) <==> w in required && w !in have
  {
    if required != [] {
      MissingIsExact(required[1..], have, w);
      assert w in required <==> w == required[0] || w in required[1..];
    }
  }

  ghost predicate Distinct(ws: seq<string>) {
    forall i, j | 0 <= i < j < |ws| :: ws[i] != ws[j]
  }

  /** The fields of a completed scope: what was missing in reverse order, then everything as it came. */
  ghost predicate Completed(required: seq<string>, have: seq<string>, result: seq<string>) {
    result == MissingReversed(required, have) + have
  }

  lemma CompletedStep(required: seq<string>, r: string, have: seq<string>, got: seq<string>)
    requires Completed(required, have, got) && r !in required
    ensures Completed(required + [r], have, if r in got then got else [r] + got)
    ensures r in have <==> r in got
  {
    MissingAppend(required, r, have);
    MissingIsExact(required, have, r);
  }

  ghost predicate EndsWith(s: string, end: string) {
    |end| <= |s| && s[|s| - |end|..] == end
  }

  lemma EndsWithTransitive(s: string, t: string, end: string)
    requires EndsWith(s, t) && EndsWith(t, end)
    ensures EndsWith(s, end)
  {
    assert s[|s| - |end|..] == t[|t| - |end|..];
  }

  method AddScope(scope: string, required: string) returns (next: string)
    requires IsWord(required)
    ensures Fields(next) == if required in Fields(scope) then Fields(scope) else [required] + Fields(scope)
    ensures required in Fields(scope) ==> next == scope
    ensures EndsWith(next, scope)
  {
    next := scope;
    var found := ContainsScope(scope, required);
    if !found {
      if scope == "" {
        FieldsOfWord(required);
        next := required;
      } else {
        FieldsPrepend(required, scope);
        next := required + " " + scope;
      }
    }
  }

  /** The loop of /authorize. The original text stays as it is, at the end. */
  method AddScopes(original: string, required: seq<string>) returns (scope: string)
    requires Distinct(required) && forall w | w in required :: IsWord(w)
    ensures Completed(required, Fields(original), Fields(scope))
    ensures EndsWith(scope, original)
    ensures (forall w | w in required :: w in Fields(original)) ==> scope == original
  {
    scope := original;
    ghost var have := Fields(original);
    assert required[..0] == [];
    for k := 0 to |required|
      invariant Completed(required[..k], have, Fields(scope))
      invariant EndsWith(scope, original)
      invariant (forall w | w in required :: w in have) ==> scope == original
    {
      var r := required[k];
      assert r !in required[..k] && required[..k + 1] == required[..k] + [r];
      CompletedStep(required[..k], r, have, Fields(scope));
      var next := AddScope(scope, r);
      EndsWithTransitive(next, scope, original);
      scope := next;
    }
    assert required[..|required|] == required;
  }

  lemma RequiredAreDistinctWords()
    ensures Distinct(REQUIRED)
    ensures forall w | w in REQUIRED :: IsWord(w)
  {
  }

  /** A completed scope holds every required scope, so completing it again changes nothing. */
  lemma CompletionIsIdempotent(required: seq<string>, have: seq<string>, once: seq<string>, twice: seq<string>)
    requires Completed(required, have, once) && Completed(required, once, twice)
    ensures forall w | w in required :: w in once
    ensures twice == once
  {
    forall w | w in required
      ensures w in once
    {
      MissingIsExact(required, have, w);
    }
    var again := MissingReversed(required, once);
    if again != [] {
      MissingIsExact(required, once, again[0]);
    }
  }

  /** Nothing is dropped, and each missing required scope is added exactly once. */
  lemma CompletionCounts(required: seq<string>, have: seq<string>, result: seq<string>, w: string)
    requires Distinct(required) && Completed(required, have, result)
    ensures multiset(result)[w] == multiset(have)[w] + if w in required && w !in have then 1 else 0
  {
    MissingOnce(required, have, w);
  }

  lemma {:induction false} MissingOnce(required: seq<string>, have: seq<string>, w: string)
    requires Distinct(required)
    ensures multiset(MissingReversed(required, have))[w] == if w in required && w !in have then 1 else 0
  {
    if required != [] {
      MissingOnce(required[1..], have, w);
      assert w in required <==> w == required[0] || w in required[1..];
      assert required[0] !in required[1..];
    }
  }

  /** What is missing, spelled out. */
  lemma MissingIs(have: seq<string>)
    ensures MissingReversed(REQUIRED, have) ==
      (if "profile" in have then [] else ["profile"])
      + (if "email" in have then [] else ["email"])
      + (if "openid" in have then [] else ["openid"])
  {
    assert REQUIRED[1..] == ["email", "profile"] && ["email", "profile"][1..] == ["profile"] && ["profile"][1..] == [];
    var third := if "profile" in have then [] else ["profile"];
    var second := if "email" in have then [] else ["email"];
    assert MissingReversed(["profile"], have) == third;
    assert MissingReversed(["email", "profile"], have) == third + second;
  }

  /** What /authorize does with the scope parameter of a request. */
  method Authorize(requested: string) returns (scope: string)
    ensures var have := Fields(requested);
      Fields(scope) ==
        (if "profile" in have then [] else ["profile"])
        + (if "email" in have then [] else ["email"])
        + (if "openid" in have then [] else ["openid"])
        + have
    ensures "openid" in Fields(scope) && "email" in Fields(scope) && "profile" in Fields(scope)
    ensures "openid" in Fields(requested) && "email" in Fields(requested) && "profile" in Fields(requested) ==>
      scope == requested
    ensures EndsWith(scope, requested)
  {
    RequiredAreDistinctWords();
    scope := AddScopes(requested, REQUIRED);
    MissingIs(Fields(requested));
    assert REQUIRED[0] in REQUIRED && REQUIRED[1] in REQUIRED && REQUIRED[2] in REQUIRED;
    CompletionIsIdempotent(REQUIRED, Fields(requested), Fields(scope),
      MissingReversed(REQUIRED, Fields(scope)) + Fields(scope));
  }
}
