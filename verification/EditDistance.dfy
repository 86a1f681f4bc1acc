/** The edit distance behind fuzzy intent matching (`EventBridge._levenshtein`).

    `Dist` is the recursive definition, `EditPath` the meaning (a chain of strings, each one
    single-character edit from the next), and `Levenshtein` the two-row dynamic program. */
module EditDistance {

  function Min(a: nat, b: nat): nat {
    if a <= b then a else b
  }

  function Init(s: string): string
    requires s != []
  {
    s[..|s| - 1]
  }

  function Last(s: string): char
    requires s != []
  {
    s[|s| - 1]
  }

  function Mismatch(a: char, b: char): nat {
    if a == b then 0 else 1
  }

  /** The recursive edit distance, on last characters. */
  function Dist(s: string, t: string): nat
    decreases |s| + |t|
  {
    if s == [] then |t|
    else if t == [] then |s|
    else Min(Min(Dist(Init(s), t) + 1, Dist(s, Init(t)) + 1),
             Dist(Init(s), Init(t)) + Mismatch(Last(s), Last(t)))
  }

  // ----- the metric laws

  lemma {:induction false} DistSelf(s: string)
    ensures Dist(s, s) == 0
  {
    if s != [] {
      DistSelf(Init(s));
    }
  }

  lemma {:induction false} ZeroIsEqual(s: string, t: string)
    requires Dist(s, t) == 0
    ensures s == t
    decreases |s|
  {
    if s != [] && t != [] {
      ZeroIsEqual(Init(s), Init(t));
      assert s == Init(s) + [Last(s)] && t == Init(t) + [Last(t)];
    }
  }

  /** Zero exactly on equal strings. */
  lemma {:induction false} Identity(s: string, t: string)
    ensures Dist(s, t) == 0 <==> s == t
  {
    DistSelf(s);
    if Dist(s, t) == 0 {
      ZeroIsEqual(s, t);
    }
  }

  /** Symmetry: the reason why swapping the arguments at the top of the program is harmless. */
  lemma {:induction false} Symmetry(s: string, t: string)
    ensures Dist(s, t) == Dist(t, s)
    decreases |s| + |t|
  {
    if s != [] && t != [] {
      Symmetry(Init(s), t);
      Symmetry(s, Init(t));
      Symmetry(Init(s), Init(t));
    }
  }

  /** The distance lies between the difference of the lengths and the longer length. */
  lemma {:induction false} Bounds(s: string, t: string)
    ensures |s| - |t| <= Dist(s, t) && |t| - |s| <= Dist(s, t)
    ensures Dist(s, t) <= if |s| <= |t| then |t| else |s|
    decreases |s| + |t|
  {
    if s != [] && t != [] {
      Bounds(Init(s), t);
      Bounds(s, Init(t));
      Bounds(Init(s), Init(t));
    }
  }

  /** One more last character on either side moves the distance by at most one. */
  lemma AppendStep(s: string, t: string)
    ensures s != [] ==> Dist(s, t) <= Dist(Init(s), t) + 1
    ensures t != [] ==> Dist(s, t) <= Dist(s, Init(t)) + 1
  {
  }

  lemma {:induction false} Triangle(s: string, t: string, u: string)
    ensures Dist(s, u) <= Dist(s, t) + Dist(t, u)
    decreases |s| + |t| + |u|
  {
    Bounds(s, t);
    Bounds(t, u);
    Bounds(s, u);
    if s != [] && t != [] && u != [] {
      AppendStep(s, u);
      if Dist(s, t) == Dist(Init(s), t) + 1 {
        Triangle(Init(s), t, u);
      } else if Dist(t, u) == Dist(t, Init(u)) + 1 {
        Triangle(s, t, Init(u));
      } else if Dist(s, t) == Dist(s, Init(t)) + 1 {
        TriangleInserted(s, t, u);
      } else if Dist(t, u) == Dist(Init(t), u) + 1 {
        Triangle(Init(s), Init(t), u);
      } else {
        Triangle(Init(s), Init(t), Init(u));
      }
    }
  }

  /** The case where the first script ends by inserting the last character of the middle string. */
  lemma {:induction false} TriangleInserted(s: string, t: string, u: string)
    requires s != [] && t != [] && u != []
    requires Dist(s, t) == Dist(s, Init(t)) + 1
    requires Dist(t, u) != Dist(t, Init(u)) + 1
    ensures Dist(s, u) <= Dist(s, t) + Dist(t, u)
    decreases |s| + |t| + |u|, 0
  {
    AppendStep(s, u);
    if Dist(t, u) == Dist(Init(t), u) + 1 {
      Triangle(s, Init(t), u);
    } else {
      Triangle(s, Init(t), Init(u));
    }
  }

  // ----- the meaning: least number of single-character edits

  predicate InsertedAt(s: string, t: string, i: int) {
    0 <= i <= |s| && |t| == |s| + 1 && t == s[..i] + [t[i]] + s[i..]
  }

  predicate ReplacedAt(s: string, t: string, i: int) {
    0 <= i < |s| && |t| == |s| && t == s[..i] + [t[i]] + s[i + 1..]
  }

  /** `t` is `s` with one character inserted, deleted or replaced. */
  ghost predicate OneEdit(s: string, t: string) {
    || (exists i :: InsertedAt(s, t, i))
    || (exists i :: InsertedAt(t, s, i))
    || (exists i :: ReplacedAt(s, t, i))
  }

  /** A chain of strings from `s` to `t`, each one edit away from the next. */
  ghost predicate EditPath(path: seq<string>, s: string, t: string) {
    && path != []
    && path[0] == s && path[|path| - 1] == t
    && forall k :: 0 < k < |path| ==> OneEdit(path[k - 1], path[k])
  }

  lemma {:induction false} CommonSuffix(a: string, b: string, w: string)
    ensures Dist(a + w, b + w) <= Dist(a, b)
    decreases |w|
  {
    if w == [] {
      assert a + w == a && b + w == b;
    } else {
      CommonSuffix(a, b, Init(w));
      assert Init(a + w) == a + Init(w) && Init(b + w) == b + Init(w);
    }
  }

  lemma EditCostsOne(s: string, t: string)
    requires OneEdit(s, t)
    ensures Dist(s, t) <= 1
  {
    if i :| InsertedAt(s, t, i) {
      InsertionCostsOne(s, t, i);
    } else if i :| InsertedAt(t, s, i) {
      InsertionCostsOne(t, s, i);
      Symmetry(s, t);
    } else {
      var i :| ReplacedAt(s, t, i);
      ReplacementCostsOne(s, t, i);
    }
  }

  lemma ReplacementCostsOne(s: string, t: string, i: int)
    requires ReplacedAt(s, t, i)
    ensures Dist(s, t) <= 1
  {
    var u, a, b := s[..i], s[..i] + [s[i]], s[..i] + [t[i]];
    assert Dist(a, b) <= 1 by {
      assert Init(a) == u && Init(b) == u;
      DistSelf(u);
    }
    CommonSuffix(a, b, s[i + 1..]);
    assert s == a + s[i + 1..] && t == b + s[i + 1..];
  }

  lemma InsertionCostsOne(s: string, t: string, i: int)
    requires InsertedAt(s, t, i)
    ensures Dist(s, t) <= 1
  {
    var u, b := s[..i], s[..i] + [t[i]];
    assert Init(b) == u;
    DistSelf(u);
    AppendStep(u, b);
    CommonSuffix(u, b, s[i..]);
    assert s == u + s[i..] && t == b + s[i..];
  }

  /** No edit path is shorter than the distance. */
  lemma {:induction false} PathIsNoShorter(path: seq<string>, s: string, t: string)
    requires EditPath(path, s, t)
    ensures Dist(s, t) <= |path| - 1
    decreases |path|
  {
    if |path| == 1 {
      DistSelf(s);
    } else {
      var n := |path| - 1;
      var m := path[n - 1];
      PathIsNoShorter(path[..n], s, m);
      EditCostsOne(m, t);
      Triangle(s, m, t);
    }
  }

  /** One of the three choices at the last characters reaches the distance. */
  lemma DistByLast(s: string, t: string)
    requires s != [] || t != []
    ensures || (t != [] && Dist(s, t) == Dist(s, Init(t)) + 1)
            || (s != [] && Dist(s, t) == Dist(Init(s), t) + 1)
            || (s != [] && t != [] && Dist(s, t) == Dist(Init(s), Init(t)) + Mismatch(Last(s), Last(t)))
  {
  }

  /** Some edit path is as short as the distance. */
  lemma {:induction false} ShortestPath(s: string, t: string) returns (path: seq<string>)
    ensures EditPath(path, s, t) && |path| == Dist(s, t) + 1
    decreases |s| + |t|
  {
    if s == [] && t == [] {
      path := [s];
      return;
    }
    DistByLast(s, t);
    if t != [] && Dist(s, t) == Dist(s, Init(t)) + 1 {
      path := ShortestPath(s, Init(t));
      path := PathThenInsert(path, s, t);
    } else if s != [] && Dist(s, t) == Dist(Init(s), t) + 1 {
      path := ShortestPath(Init(s), t);
      path := DeleteThenPath(path, s, t);
    } else {
      path := ShortestPath(Init(s), Init(t));
      path := SubstituteLast(path, s, t);
    }
  }

  lemma PathThenInsert(p: seq<string>, s: string, t: string) returns (path: seq<string>)
    requires t != [] && EditPath(p, s, Init(t))
    ensures EditPath(path, s, t) && |path| == |p| + 1
  {
    assert InsertedAt(Init(t), t, |t| - 1);
    path := PathThen(p, s, Init(t), t);
  }

  lemma DeleteThenPath(p: seq<string>, s: string, t: string) returns (path: seq<string>)
    requires s != [] && EditPath(p, Init(s), t)
    ensures EditPath(path, s, t) && |path| == |p| + 1
  {
    assert InsertedAt(Init(s), s, |s| - 1);
    path := [s] + p;
  }

  lemma PathThen(p: seq<string>, s: string, m: string, t: string) returns (path: seq<string>)
    requires EditPath(p, s, m) && OneEdit(m, t)
    ensures EditPath(path, s, t) && |path| == |p| + 1
  {
    path := p + [t];
  }

  /** A path between the initial parts carries over, with one replacement if the last characters differ. */
  lemma SubstituteLast(p: seq<string>, s: string, t: string) returns (path: seq<string>)
    requires s != [] && t != []
    requires EditPath(p, Init(s), Init(t))
    ensures EditPath(path, s, t) && |path| == |p| + Mismatch(Last(s), Last(t))
  {
    path := AppendToAll(p, Init(s), Init(t), Last(s));
    var m := Init(t) + [Last(s)];
    assert s == Init(s) + [Last(s)];
    if Last(s) == Last(t) {
      assert t == m;
    } else {
      assert ReplacedAt(m, t, |t| - 1);
      path := PathThen(path, s, m, t);
    }
  }

  lemma AppendToAll(p: seq<string>, s: string, t: string, c: char) returns (q: seq<string>)
    requires EditPath(p, s, t)
    ensures EditPath(q, s + [c], t + [c]) && |q| == |p|
  {
    q := seq(|p|, k requires 0 <= k < |p| => p[k] + [c]);
    forall k | 0 < k < |q|
      ensures OneEdit(q[k - 1], q[k])
    {
      AppendKeepsEdit(p[k - 1], p[k], c);
    }
  }

  lemma AppendKeepsEdit(s: string, t: string, c: char)
    requires OneEdit(s, t)
    ensures OneEdit(s + [c], t + [c])
  {
    if i :| InsertedAt(s, t, i) {
      assert InsertedAt(s + [c], t + [c], i);
    } else if i :| InsertedAt(t, s, i) {
      assert InsertedAt(t + [c], s + [c], i);
    } else {
      var i :| ReplacedAt(s, t, i);
      assert ReplacedAt(s + [c], t + [c], i);
    }
  }

  /** `d` edits reach `t` from `s`. */
  ghost predicate Within(s: string, t: string, d: nat) {
    exists path :: EditPath(path, s, t) && |path| <= d + 1
  }

  /** The distance is at most `d` exactly when at most `d` single-character edits suffice. */
  lemma DistIsLeastEdits(s: string, t: string, d: nat)
    ensures Dist(s, t) <= d <==> Within(s, t, d)
  {
    if Dist(s, t) <= d {
      var path := ShortestPath(s, t);
      assert EditPath(path, s, t) && |path| <= d + 1;
    }
    if Within(s, t, d) {
      var path :| EditPath(path, s, t) && |path| <= d + 1;
      PathIsNoShorter(path, s, t);
    }
  }

  // ----- the two-row program

  /** The finished row for the prefix `p`: its distance to every prefix of `t`. */
  ghost predicate IsRow(row: seq<nat>, p: string, t: string, upto: nat)
    requires upto <= |t|
  {
    |row| == upto + 1 && forall j :: 0 <= j <= upto ==> row[j] == Dist(p, t[..j])
  }

  lemma FirstRow(row: seq<nat>, t: string)
    requires |row| == |t| + 1 && forall j :: 0 <= j <= |t| ==> row[j] == j
    ensures IsRow(row, [], t, |t|)
  {
  }

  lemma RowStart(p: string, t: string)
    ensures IsRow([|p|], p, t, 0)
  {
  }

  /** One pass of the inner loop extends the row by the cell of the next character. */
  lemma NextCell(prev: seq<nat>, curr: seq<nat>, p: string, c: char, t: string, j: nat)
    requires j < |t|
    requires IsRow(prev, p, t, |t|) && IsRow(curr, p + [c], t, j)
    ensures IsRow(curr + [Min(Min(prev[j + 1] + 1, curr[j] + 1), prev[j] + Mismatch(c, t[j]))], p + [c], t, j + 1)
  {
    assert Init(p + [c]) == p && Init(t[..j + 1]) == t[..j];
    var cell := Min(Min(prev[j + 1] + 1, curr[j] + 1), prev[j] + Mismatch(c, t[j]));
    assert Dist(p + [c], t[..j + 1]) == cell;
  }

  method Levenshtein(s1: string, s2: string) returns (d: nat)
    ensures d == Dist(s1, s2)
    decreases if |s1| < |s2| then 1 else 0
  {
    if |s1| < |s2| {
      d := Levenshtein(s2, s1);
      Symmetry(s1, s2);
      return;
    }
    if |s2| == 0 {
      return |s1|;
    }
    var prevRow: seq<nat> := seq(|s2| + 1, j requires 0 <= j => j);
    FirstRow(prevRow, s2);
    for i := 0 to |s1|
      invariant IsRow(prevRow, s1[..i], s2, |s2|)
    {
      var c1 := s1[i];
      assert s1[..i + 1] == s1[..i] + [c1];
      var currRow: seq<nat> := [i + 1];
      RowStart(s1[..i + 1], s2);
      for j := 0 to |s2|
        invariant IsRow(currRow, s1[..i + 1], s2, j)
      {
        var insertions := prevRow[j + 1] + 1;
        var deletions := currRow[j] + 1;
        var substitutions := prevRow[j] + Mismatch(c1, s2[j]);
        NextCell(prevRow, currRow, s1[..i], c1, s2, j);
        currRow := currRow + [Min(Min(insertions, deletions), substitutions)];
      }
      prevRow := currRow;
    }
    assert s1[..|s1|] == s1 && s2[..|s2|] == s2;
    d := prevRow[|prevRow| - 1];
  }

  // ----- its use: a word matches a keyword of four or more letters within two edits

  const FUZZY_MIN_KEYWORD := 4
  const FUZZY_MAX_EDITS := 2

  /** `word.rstrip("?!.,")`. */
  function StripPunctuation(word: string): (r: string)
    ensures r <= word
    ensures r != [] ==> Last(r) !in "?!.,"
    ensures forall k :: |r| <= k < |word| ==> word[k] in "?!.,"
  {
    if word != [] && Last(word) in "?!.," then StripPunctuation(Init(word)) else word
  }

  /** The word loop of the fuzzy branch: a keyword matches exactly when it is long enough and at
      most two single-character edits turn some stripped word into it. */
  method FuzzyMatch(words: seq<string>, keyword: string) returns (found: bool)
    ensures found <==> |keyword| >= FUZZY_MIN_KEYWORD
                       && exists w :: w in words && Within(StripPunctuation(w), keyword, FUZZY_MAX_EDITS)
  {
    if |keyword| < FUZZY_MIN_KEYWORD {
      return false;
    }
    for k := 0 to |words|
      invariant forall j :: 0 <= j < k ==> !Within(StripPunctuation(words[j]), keyword, FUZZY_MAX_EDITS)
    {
      var d := Levenshtein(StripPunctuation(words[k]), keyword);
      DistIsLeastEdits(StripPunctuation(words[k]), keyword, FUZZY_MAX_EDITS);
      if d <= FUZZY_MAX_EDITS {
        assert words[k] in words;
        return true;
      }
    }
    return false;
  }
}
