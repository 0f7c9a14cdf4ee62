module Wrappers {
  datatype Option<+T> = None | Some(value: T)

  function Min(a: int, b: int): int {
    if a <= b then a else b
  }

  /** `part` occurs in `s` at position i. */
  predicate OccursAt(s: string, part: string, i: int) {
    0 <= i && i + |part| <= |s| && s[i..i + |part|] == part
  }

  predicate Contains(s: string, part: string) {
    exists i | 0 <= i <= |s| :: OccursAt(s, part, i)
  }

  /** A number above all those in use. */
  ghost function FreshId(ids: set<nat>): (n: nat)
    ensures forall id | id in ids :: id < n
  {
    if ids == {} then 0
    else
      var id :| id in ids;
      var n := FreshId(ids - {id});
      assert forall other | other in ids :: other == id || other in ids - {id};
      if id < n then n else id + 1
  }
}
