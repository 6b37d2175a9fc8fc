/** The JavaScript string operations the form code relies on, over `string`
    (a `seq<char>`). */
module Text {
  import opened Wrappers

  /** `s.startsWith(p)` */
  predicate StartsWith(s: string, p: string) {
    |p| <= |s| && s[..|p|] == p
  }

  /** `t` occurs in `s` starting at position `i`. */
  predicate MatchAt(s: string, t: string, i: int) {
    0 <= i <= |s| - |t| && s[i..i + |t|] == t
  }

  /** `s.includes(t)`: `t` occurs somewhere in `s` as a contiguous block. */
  predicate Contains(s: string, t: string) {
    exists i :: 0 <= i <= |s| - |t| && MatchAt(s, t, i)
  }

  /** What JavaScript's `+` produces for an optional string operand: the
      string itself, or the text "undefined" when the value is missing. */
  function Stringify(v: Option<string>): (r: string)
    ensures v.Some? ==> r == v.value
    ensures v.None? ==> r == "undefined"
  {
    match v
    case Some(s) => s
    case None => "undefined"
  }

  /** A field read on a record: `data.key`, `undefined` when the key is absent. */
  function Lookup(m: map<string, string>, key: string): (r: Option<string>)
    ensures r.Some? <==> key in m
    ensures r.Some? ==> r.value == m[key]
  {
    if key in m then Some(m[key]) else None
  }

  /** A prefix is found by `includes` as well as by `startsWith`. */
  lemma StartsWithContains(s: string, p: string)
    ensures StartsWith(s, p) ==> Contains(s, p)
  {
    if StartsWith(s, p) {
      assert MatchAt(s, p, 0);
    }
  }

  /** `t` cannot occur in `s` when its first two characters never stand
      next to each other in `s`. */
  lemma NotContainsByPair(s: string, t: string)
    requires |t| >= 2
    requires forall i :: 0 <= i < |s| - 1 ==> !(s[i] == t[0] && s[i + 1] == t[1])
    ensures !Contains(s, t)
  {
    forall i | 0 <= i <= |s| - |t|
      ensures !MatchAt(s, t, i)
    {
      MatchAtHead(s, t, i);
    }
  }

  /** A match at `i` puts the first two characters of `t` at `i` and `i + 1`. */
  lemma MatchAtHead(s: string, t: string, i: int)
    requires |t| >= 2 && 0 <= i <= |s| - |t|
    ensures MatchAt(s, t, i) ==> s[i] == t[0] && s[i + 1] == t[1]
  {
    assert s[i..i + |t|][0] == s[i] && s[i..i + |t|][1] == s[i + 1];
  }
}
