/** The key formats of the shared Valkey: cache keys, their per-user prefix, and rate-limit keys. */
module Keys {

  function Digit(d: nat): (c: char)
    requires d < 10
    ensures '0' <= c <= '9'
  {
    ('0' as int + d) as char
  }

  /** "%d" of a natural number. */
  function DecimalNat(n: nat): (s: string)
    ensures s != []
    ensures forall c | c in s :: '0' <= c <= '9'
  {
    if n < 10 then [Digit(n)] else DecimalNat(n / 10) + [Digit(n % 10)]
  }

  /** "%d" of an integer. */
  function Decimal(z: int): (s: string)
    ensures s != []
    ensures forall c | c in s :: c == '-' || '0' <= c <= '9'
  {
    if z < 0 then "-" + DecimalNat(-z) else DecimalNat(z)
  }

  lemma {:induction false} DecimalNatInjective(a: nat, b: nat)
    requires DecimalNat(a) == DecimalNat(b)
    ensures a == b
  {
    var s, t := DecimalNat(a), DecimalNat(b);
    assert s[|s| - 1] == Digit(a % 10) && t[|t| - 1] == Digit(b % 10);
    assert a % 10 == b % 10;
    if a >= 10 && b >= 10 {
      assert s[..|s| - 1] == DecimalNat(a / 10) && t[..|t| - 1] == DecimalNat(b / 10);
      DecimalNatInjective(a / 10, b / 10);
    }
  }

  lemma DecimalInjective(a: int, b: int)
    requires Decimal(a) == Decimal(b)
    ensures a == b
  {
    assert a >= 0 ==> Decimal(a)[0] in DecimalNat(a);
    assert b >= 0 ==> Decimal(b)[0] in DecimalNat(b);
    if a < 0 && b < 0 {
      assert Decimal(a)[1..] == DecimalNat(-a) && Decimal(b)[1..] == DecimalNat(-b);
      DecimalNatInjective(-a, -b);
    } else if a >= 0 && b >= 0 {
      DecimalNatInjective(a, b);
    }
  }

  function CachePrefix(uid: int): string {
    "mcp:" + Decimal(uid) + ":"
  }

  /** The digest stands for the arguments: the hex of SHA-256 never contains a colon. */
  function CacheKey(uid: int, tool: string, digest: string): string {
    "mcp:" + Decimal(uid) + ":" + tool + ":" + digest
  }

  function RateKey(session: string, second: int): string {
    "ratelimit:" + session + ":" + Decimal(second)
  }

  /** The number that digits stand for. */
  function ValueOf(s: string): int {
    if s == "" then 0 else 10 * ValueOf(s[..|s| - 1]) + (s[|s| - 1] as int - '0' as int)
  }

  /** Decimal digits read back as the number, without leading zeros. */
  lemma {:induction false} DecimalReadsBack(n: nat)
    ensures ValueOf(DecimalNat(n)) == n
    ensures n > 0 ==> DecimalNat(n)[0] != '0'
  {
    var s := DecimalNat(n);
    assert s[|s| - 1] == Digit(n % 10);
    if n >= 10 {
      DecimalReadsBack(n / 10);
      assert s[..|s| - 1] == DecimalNat(n / 10);
    } else {
      assert s[..0] == "";
    }
  }

  /** What the keys look like. */
  lemma KeyFormats(digest: string)
    ensures CachePrefix(42) == "mcp:42:" && CachePrefix(-1) == "mcp:-1:"
    ensures CacheKey(42, "odoo_read", digest) == "mcp:42:odoo_read:" + digest
    ensures RateKey("a:b", 7) == "ratelimit:a:b:7"
  {
    assert DecimalNat(4) == "4" && DecimalNat(2) == "2" && DecimalNat(42) == "4" + "2";
    assert DecimalNat(1) == "1" && DecimalNat(7) == "7";
  }

  predicate IsDigest(s: string) {
    |s| == 64 && forall c | c in s :: '0' <= c <= '9' || 'a' <= c <= 'f'
  }

  /** Two colon-free heads followed by a colon split a string in only one way. */
  lemma FirstColon(p: string, q: string, x: string, y: string)
    requires ':' !in p && ':' !in q && p + ":" + x == q + ":" + y
    ensures p == q && x == y
  {
    var s, t := p + ":" + x, q + ":" + y;
    assert s[|p|] == ':' && t[|q|] == ':';
    assert forall i | 0 <= i < |p| :: s[i] == p[i] && p[i] in p;
    assert forall i | 0 <= i < |q| :: t[i] == q[i] && q[i] in q;
    assert |p| == |q|;
    assert s[..|p|] == p && t[..|q|] == q;
    assert s[|p| + 1..] == x && t[|q| + 1..] == y;
  }

  /** Two colon-free tails after a colon split a string in only one way. */
  lemma LastColon(x: string, y: string, p: string, q: string)
    requires ':' !in p && ':' !in q && x + ":" + p == y + ":" + q
    ensures x == y && p == q
  {
    var s, t := x + ":" + p, y + ":" + q;
    assert s[|x|] == ':' && t[|y|] == ':';
    assert forall i | |x| < i < |s| :: s[i] == p[i - |x| - 1] && p[i - |x| - 1] in p;
    assert forall i | |y| < i < |t| :: t[i] == q[i - |y| - 1] && q[i - |y| - 1] in q;
    assert |x| == |y|;
    assert s[..|x|] == x && t[..|y|] == y;
    assert s[|x| + 1..] == p && t[|y| + 1..] == q;
  }

  lemma HeadDecides(p: string, q: string, rest: string)
    requires ':' !in p && ':' !in q
    ensures "mcp:" + q + ":" <= "mcp:" + p + ":" + rest <==> p == q
  {
    var head, key := "mcp:" + q + ":", "mcp:" + p + ":" + rest;
    if head <= key {
      var tail := key[|head|..];
      assert key == head + tail;
      assert key[4..] == q + ":" + tail == p + ":" + rest;
      FirstColon(q, p, tail, rest);
    }
  }

  /** A cache key carries the prefix of its own user and of no other. */
  lemma PrefixIffOwner(uid: int, tool: string, digest: string, v: int)
    ensures CachePrefix(v) <= CacheKey(uid, tool, digest) <==> uid == v
  {
    var p, q, rest := Decimal(uid), Decimal(v), tool + ":" + digest;
    HeadDecides(p, q, rest);
    assert CacheKey(uid, tool, digest) == "mcp:" + p + ":" + rest;
    if p == q {
      DecimalInjective(uid, v);
    }
  }

  lemma PartsDecided(p: string, t: string, d: string, q: string, u: string, e: string)
    requires ':' !in p && ':' !in q && ':' !in d && ':' !in e
    requires "mcp:" + p + ":" + t + ":" + d == "mcp:" + q + ":" + u + ":" + e
    ensures p == q && t == u && d == e
  {
    var x, y := "mcp:" + p + ":" + t + ":" + d, "mcp:" + q + ":" + u + ":" + e;
    assert x[4..] == p + ":" + (t + ":" + d) && y[4..] == q + ":" + (u + ":" + e);
    FirstColon(p, q, t + ":" + d, u + ":" + e);
    LastColon(t, u, d, e);
  }

  /** The tool name may hold anything, colons included. */
  lemma CacheKeyInjective(u1: int, t1: string, d1: string, u2: int, t2: string, d2: string)
    requires IsDigest(d1) && IsDigest(d2)
    requires CacheKey(u1, t1, d1) == CacheKey(u2, t2, d2)
    ensures u1 == u2 && t1 == t2 && d1 == d2
  {
    PartsDecided(Decimal(u1), t1, d1, Decimal(u2), t2, d2);
    DecimalInjective(u1, u2);
  }

  /** Sessions may contain colons: the second is what follows the last one. */
  lemma RateKeyInjective(s1: string, k1: int, s2: string, k2: int)
    requires RateKey(s1, k1) == RateKey(s2, k2)
    ensures s1 == s2 && k1 == k2
  {
    assert RateKey(s1, k1)[10..] == s1 + ":" + Decimal(k1);
    assert RateKey(s2, k2)[10..] == s2 + ":" + Decimal(k2);
    LastColon(s1, s2, Decimal(k1), Decimal(k2));
    DecimalInjective(k1, k2);
  }

  // Valkey's MATCH patterns, bracket classes excepted.

  predicate Matches(pattern: string, s: string)
    requires '[' !in pattern
    decreases |pattern|, |s|
  {
    if pattern == [] then s == []
    else if pattern[0] == '*' then
      Matches(pattern[1..], s) || (s != [] && Matches(pattern, s[1..]))
    else if pattern[0] == '?' then s != [] && Matches(pattern[1..], s[1..])
    else if pattern[0] == '\\' && |pattern| > 1 then
      s != [] && s[0] == pattern[1] && Matches(pattern[2..], s[1..])
    else s != [] && s[0] == pattern[0] && Matches(pattern[1..], s[1..])
  }

  predicate Literal(p: string) {
    forall c | c in p :: c !in "*?[\\"
  }

  lemma {:induction false} StarMatchesAll(s: string)
    ensures Matches("*", s)
    decreases |s|
  {
    assert "*"[1..] == "";
    if s != [] {
      StarMatchesAll(s[1..]);
    }
  }

  lemma {:induction false} LiteralGlobIsPrefix(p: string, s: string)
    requires Literal(p)
    ensures Matches(p + "*", s) <==> p <= s
  {
    if p == [] {
      assert p + "*" == "*";
      StarMatchesAll(s);
    } else {
      assert (p + "*")[1..] == p[1..] + "*";
      assert (p + "*")[0] == p[0] && p[0] in p;
      if s != [] {
        assert p <= s ==> p[0] == s[0] && p[1..] == s[1..][..|p| - 1];
        LiteralGlobIsPrefix(p[1..], s[1..]);
        if p[0] == s[0] && p[1..] <= s[1..] {
          assert p == [p[0]] + p[1..] && s == [s[0]] + s[1..];
        }
      }
    }
  }

  lemma CachePrefixLiteral(uid: int)
    ensures Literal(CachePrefix(uid))
  {
  }

  /** What SCAN MATCH selects for a user: exactly that user's cache keys, and no rate-limit key. */
  lemma InvalidationPattern(v: int, uid: int, tool: string, digest: string, session: string, second: int)
    ensures '[' !in CachePrefix(v) + "*"
    ensures Matches(CachePrefix(v) + "*", CacheKey(uid, tool, digest)) <==> uid == v
    ensures !Matches(CachePrefix(v) + "*", RateKey(session, second))
  {
    CachePrefixLiteral(v);
    LiteralGlobIsPrefix(CachePrefix(v), CacheKey(uid, tool, digest));
    LiteralGlobIsPrefix(CachePrefix(v), RateKey(session, second));
    PrefixIffOwner(uid, tool, digest, v);
    assert CachePrefix(v)[0] == 'm' && RateKey(session, second)[0] == 'r';
  }
}
