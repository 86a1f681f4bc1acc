/** The order of strings by code point, as `sorted` uses it. */
module TextOrder {
  /** Lexicographic order on strings by code point. */
  predicate Leq(s: string, t: string) {
    s == "" || (t != "" && (s[0] < t[0] || (s[0] == t[0] && Leq(s[1..], t[1..]))))
  }

  lemma {:induction false} LeqTotal(s: string, t: string)
    ensures Leq(s, t) || Leq(t, s)
  {
    if s != "" && t != "" && s[0] == t[0] {
      LeqTotal(s[1..], t[1..]);
    }
  }

  lemma {:induction false} LeqAntisymmetric(s: string, t: string)
    requires Leq(s, t) && Leq(t, s)
    ensures s == t
  {
    if s != "" {
      LeqAntisymmetric(s[1..], t[1..]);
      assert s == [s[0]] + s[1..] && t == [t[0]] + t[1..];
    }
  }

  lemma {:induction false} LeqTransitive(s: string, t: string, u: string)
    requires Leq(s, t) && Leq(t, u)
    ensures Leq(s, u)
  {
    if s != "" && s[0] == t[0] && t[0] == u[0] {
      LeqTransitive(s[1..], t[1..], u[1..]);
    }
  }
}
