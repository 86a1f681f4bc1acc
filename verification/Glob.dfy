/** The glob compiler of the self-modifier (`_glob_to_regex`, `_glob_match`).

    `Means` is the meaning of a glob, said on the glob itself. The program writes a regular
    expression as text; `ReadPattern` reads such text back and `Accepts` says which strings it
    matches. The main theorem joins the two. */
module Glob {
  import opened Common

  // ----- text helpers

  function Find(s: string, c: char): (i: nat)
    ensures i <= |s| && c !in s[..i] && (i < |s| ==> s[i] == c)
  {
    if s == "" || s[0] == c then 0
    else
      var j := Find(s[1..], c);
      assert s[..j + 1] == [s[0]] + s[1..][..j];
      j + 1
  }

  function Join(sep: string, parts: seq<string>): string {
    if parts == [] then "" else if |parts| == 1 then parts[0] else parts[0] + sep + Join(sep, parts[1..])
  }

  function Concat(parts: seq<string>): string {
    if parts == [] then "" else parts[0] + Concat(parts[1..])
  }

  /** `s.split(c)`: joining the parts gives `s`, and no part holds the separator. */
  function Split(s: string, c: char): (parts: seq<string>)
    ensures parts != [] && Join([c], parts) == s
    ensures forall part :: part in parts ==> c !in part
    decreases |s|
  {
    var i := Find(s, c);
    if i == |s| then
      assert s[..i] == s;
      [s]
    else
      var rest := Split(s[i + 1..], c);
      var parts := [s[..i]] + rest;
      assert parts[1..] == rest && s == s[..i] + [c] + s[i + 1..];
      parts
  }

  /** There is only one way to split: parts without the separator come back out of their join. */
  lemma {:induction false} SplitUndoesJoin(parts: seq<string>, c: char)
    requires parts != [] && forall part :: part in parts ==> c !in part
    ensures Split(Join([c], parts), c) == parts
    decreases |parts|
  {
    var s := Join([c], parts);
    var head := parts[0];
    assert head in parts;
    if |parts| > 1 {
      var tail := Join([c], parts[1..]);
      SplitUndoesJoin(parts[1..], c);
      SplitAtFirst(head, tail, c);
      assert s == head + [c] + tail;
    }
  }

  lemma SplitAtFirst(head: string, tail: string, c: char)
    requires c !in head
    ensures Split(head + [c] + tail, c) == [head] + Split(tail, c)
  {
    var s := head + [c] + tail;
    assert s[..|head|] == head && s[|head| + 1..] == tail;
    FirstAt(s, c, |head|);
  }

  lemma FirstAt(s: string, c: char, i: nat)
    requires i < |s| && s[i] == c && c !in s[..i]
    ensures Find(s, c) == i
  {
  }

  predicate StartsDoubleStar(glob: string) {
    |glob| >= 2 && glob[0] == '*' && glob[1] == '*'
  }

  /** What is left after `**`: one directly following slash belongs to it. */
  function AfterDoubleStar(glob: string): (rest: string)
    requires StartsDoubleStar(glob)
    ensures |rest| < |glob| && rest == glob[|glob| - |rest|..]
  {
    if |glob| > 2 && glob[2] == '/' then glob[3..] else glob[2..]
  }

  /** The index of the brace that closes the one at the head, if any. */
  function CloseBrace(glob: string): (close: Option<nat>)
    requires glob != ""
    ensures close.Some? ==> 0 < close.value < |glob| && glob[close.value] == '}' && '}' !in glob[1..close.value]
    ensures close.None? ==> '}' !in glob[1..]
  {
    var i := 1 + Find(glob[1..], '}');
    assert glob[1..][..i - 1] == glob[1..i] && (i == |glob| ==> glob[1..i] == glob[1..]);
    if i < |glob| then Some(i) else None
  }

  // ----- the meaning of a glob

  /** `glob` describes `path`: `**` is any text, `*` any text without a slash, `?` one character
      that is not a slash, `{a,b}` one of the listed texts, everything else itself. */
  predicate Means(glob: string, path: string)
    decreases |glob|
  {
    if glob == "" then path == ""
    else if StartsDoubleStar(glob) then
      exists k :: 0 <= k <= |path| && Means(AfterDoubleStar(glob), path[k..])
    else if glob[0] == '*' then
      exists k :: 0 <= k <= |path| && '/' !in path[..k] && Means(glob[1..], path[k..])
    else if glob[0] == '?' then
      path != "" && path[0] != '/' && Means(glob[1..], path[1..])
    else if glob[0] == '{' && CloseBrace(glob).Some? then
      var close := CloseBrace(glob).value;
      exists k :: 0 <= k <= |path| && path[..k] in Split(glob[1..close], ',') && Means(glob[close + 1..], path[k..])
    else
      path != "" && path[0] == glob[0] && Means(glob[1..], path[1..])
  }

  /** Literal text in front stands for itself. */
  lemma {:induction false} LiteralFront(text: string, glob: string, path: string)
    requires forall c :: c in text ==> c !in "*?{"
    ensures Means(text + glob, text + path) <==> Means(glob, path)
    decreases |text|
  {
    if text == "" {
      assert text + glob == glob && text + path == path;
    } else {
      assert text[0] in text;
      assert (text + glob)[0] == text[0] && (text + path)[0] == text[0];
      assert (text + glob)[1..] == text[1..] + glob && (text + path)[1..] == text[1..] + path;
      LiteralFront(text[1..], glob, path);
    }
  }

  // ----- the same meaning, said on what a glob is written from

  /** What an author of a glob writes down, piece by piece. */
  datatype Piece =
    | Text(c: char)
    | AnyText(slash: bool)          // `**`, with or without a slash behind it
    | InSegment                     // `*`
    | OneChar                       // `?`
    | OneOf(alts: seq<string>)      // `{a,b}`

  function Spelling(piece: Piece): string {
    match piece
    case Text(c) => [c]
    case AnyText(slash) => if slash then "**/" else "**"
    case InSegment => "*"
    case OneChar => "?"
    case OneOf(alts) => "{" + Join(",", alts) + "}"
  }

  function Written(pieces: seq<Piece>): string {
    if pieces == [] then "" else Spelling(pieces[0]) + Written(pieces[1..])
  }

  /** Which text a piece stands for. */
  predicate StandsFor(piece: Piece, text: string) {
    match piece
    case Text(c) => text == [c]
    case AnyText(_) => true
    case InSegment => '/' !in text
    case OneChar => |text| == 1 && text[0] != '/'
    case OneOf(alts) => text in alts
  }

  /** The spelling of a piece in front of `rest` reads as that piece. */
  predicate Distinct(piece: Piece, rest: string) {
    match piece
    case Text(c) => c !in "*?{"
    case AnyText(slash) => !slash ==> !("/" <= rest)
    case InSegment => !("*" <= rest)
    case OneChar => true
    case OneOf(alts) => alts != [] && forall alt :: alt in alts ==> ',' !in alt && '}' !in alt
  }

  predicate WellWritten(pieces: seq<Piece>) {
    pieces == [] || (Distinct(pieces[0], Written(pieces[1..])) && WellWritten(pieces[1..]))
  }

  /** The path falls apart into one text for each piece. */
  predicate FallsApart(pieces: seq<Piece>, path: string, texts: seq<string>) {
    && |texts| == |pieces| && Concat(texts) == path
    && forall i :: 0 <= i < |pieces| ==> StandsFor(pieces[i], texts[i])
  }

  lemma {:induction false} JoinKeepsOut(sep: string, parts: seq<string>, c: char)
    requires c !in sep && forall part :: part in parts ==> c !in part
    ensures c !in Join(sep, parts)
    decreases |parts|
  {
    if parts != [] {
      assert parts[0] in parts;
      JoinKeepsOut(sep, parts[1..], c);
    }
  }

  /** Braces around alternatives, joined by commas, mean any one of the alternatives. */
  lemma BracesMeanOneOf(alts: seq<string>, rest: string, path: string)
    requires alts != [] && forall alt :: alt in alts ==> ',' !in alt && '}' !in alt
    ensures Means("{" + Join(",", alts) + "}" + rest, path)
       <==> exists alt :: alt in alts && alt <= path && Means(rest, path[|alt|..])
  {
    var inner := Join(",", alts);
    var glob := "{" + inner + "}" + rest;
    var n := |inner| + 1;
    JoinKeepsOut(",", alts, '}');
    SplitUndoesJoin(alts, ',');
    BraceClosesAt(inner, rest);
    assert glob[1..n] == inner && glob[n + 1..] == rest;
    if Means(glob, path) {
      var k :| 0 <= k <= |path| && path[..k] in alts && Means(rest, path[k..]);
      assert path[..k] <= path && |path[..k]| == k;
    }
    if alt :| alt in alts && alt <= path && Means(rest, path[|alt|..]) {
      assert path[..|alt|] == alt;
    }
  }

  lemma BraceClosesAt(inner: string, rest: string)
    requires '}' !in inner
    ensures CloseBrace("{" + inner + "}" + rest) == Some(|inner| + 1)
  {
    var glob := "{" + inner + "}" + rest;
    assert glob[1..][..|inner|] == inner;
    FirstAt(glob[1..], '}', |inner|);
  }

  lemma MeansOneCharacter(piece: Piece, rest: string, path: string)
    requires (piece.Text? && piece.c !in "*?{") || piece.OneChar?
    ensures Means(Spelling(piece) + rest, path)
       <==> exists k :: 0 <= k <= |path| && StandsFor(piece, path[..k]) && Means(rest, path[k..])
  {
    var glob := Spelling(piece) + rest;
    assert glob[1..] == rest;
    if Means(glob, path) {
      assert path[..1] == [path[0]] && StandsFor(piece, path[..1]);
    }
    if k :| 0 <= k <= |path| && StandsFor(piece, path[..k]) && Means(rest, path[k..]) {
      assert |path[..k]| == 1 && path[..k][0] == path[0];
    }
  }

  lemma MeansOneOf(alts: seq<string>, rest: string, path: string)
    requires alts != [] && forall alt :: alt in alts ==> ',' !in alt && '}' !in alt
    ensures Means(Spelling(OneOf(alts)) + rest, path)
       <==> exists k :: 0 <= k <= |path| && path[..k] in alts && Means(rest, path[k..])
  {
    BracesMeanOneOf(alts, rest, path);
    if alt :| alt in alts && alt <= path && Means(rest, path[|alt|..]) {
      assert path[..|alt|] == alt;
    }
    if k :| 0 <= k <= |path| && path[..k] in alts && Means(rest, path[k..]) {
      assert path[..k] <= path && |path[..k]| == k;
    }
  }

  /** The meaning of a glob by its first piece. */
  lemma MeansByPiece(piece: Piece, rest: string, path: string)
    requires Distinct(piece, rest)
    ensures Means(Spelling(piece) + rest, path)
       <==> exists k :: 0 <= k <= |path| && StandsFor(piece, path[..k]) && Means(rest, path[k..])
  {
    var glob := Spelling(piece) + rest;
    match piece
    case Text(_) => MeansOneCharacter(piece, rest, path);
    case AnyText(_) => assert AfterDoubleStar(glob) == rest;
    case InSegment => assert glob[1..] == rest && !StartsDoubleStar(glob);
    case OneChar => MeansOneCharacter(piece, rest, path);
    case OneOf(alts) => MeansOneOf(alts, rest, path);
  }

  lemma FallsApartFront(pieces: seq<Piece>, path: string, k: nat, texts: seq<string>)
    requires pieces != [] && k <= |path| && StandsFor(pieces[0], path[..k]) && FallsApart(pieces[1..], path[k..], texts)
    ensures FallsApart(pieces, path, [path[..k]] + texts)
  {
    var all := [path[..k]] + texts;
    assert all[1..] == texts && path == path[..k] + path[k..];
    forall i | 0 <= i < |pieces|
      ensures StandsFor(pieces[i], all[i])
    {
      assert i > 0 ==> pieces[i] == pieces[1..][i - 1] && all[i] == texts[i - 1];
    }
  }

  lemma FrontFallsApart(pieces: seq<Piece>, path: string, texts: seq<string>) returns (k: nat)
    requires pieces != [] && FallsApart(pieces, path, texts)
    ensures k <= |path| && StandsFor(pieces[0], path[..k]) && FallsApart(pieces[1..], path[k..], texts[1..])
  {
    k := |texts[0]|;
    assert path[..k] == texts[0] && path[k..] == Concat(texts[1..]);
    assert forall i :: 0 <= i < |pieces| - 1 ==> pieces[1..][i] == pieces[i + 1] && texts[1..][i] == texts[i + 1];
  }

  /** For every well written glob: it means the paths that fall apart into one text for each of its
      pieces, in order, and no others. */
  lemma {:induction false} WrittenMeans(pieces: seq<Piece>, path: string)
    requires WellWritten(pieces)
    ensures Means(Written(pieces), path) <==> exists texts :: FallsApart(pieces, path, texts)
    decreases |pieces|
  {
    if pieces == [] {
      assert FallsApart([], "", []);
    } else {
      var rest := Written(pieces[1..]);
      MeansByPiece(pieces[0], rest, path);
      if k :| 0 <= k <= |path| && StandsFor(pieces[0], path[..k]) && Means(rest, path[k..]) {
        WrittenMeans(pieces[1..], path[k..]);
        var texts :| FallsApart(pieces[1..], path[k..], texts);
        FallsApartFront(pieces, path, k, texts);
      }
      if texts :| FallsApart(pieces, path, texts) {
        var k := FrontFallsApart(pieces, path, texts);
        WrittenMeans(pieces[1..], path[k..]);
      }
    }
  }

  // ----- regular expressions

  datatype Node =
    | Any                        // .
    | NotSlash                   // [^/]
    | Chr(c: char)
    | Group(alts: seq<string>)   // (?:a|b)
    | Star(body: Node)

  /** `node` matches exactly the whole of `s`. A dot does not match a line feed. */
  predicate MatchOne(node: Node, s: string)
    decreases node, |s|
  {
    match node
    case Any => |s| == 1 && s[0] != '\n'
    case NotSlash => |s| == 1 && s[0] != '/'
    case Chr(c) => s == [c]
    case Group(alts) => s in alts
    case Star(body) =>
      s == "" || exists k :: 1 <= k <= |s| && MatchOne(body, s[..k]) && MatchOne(node, s[k..])
  }

  predicate MatchSeq(nodes: seq<Node>, s: string)
    decreases |nodes|
  {
    if nodes == [] then s == ""
    else exists k :: 0 <= k <= |s| && MatchOne(nodes[0], s[..k]) && MatchSeq(nodes[1..], s[k..])
  }

  /** `^nodes$` finds a match at the start of `path`: `$` also holds before a final line feed. */
  predicate Accepts(nodes: seq<Node>, path: string) {
    || MatchSeq(nodes, path)
    || (path != "" && path[|path| - 1] == '\n' && MatchSeq(nodes, path[..|path| - 1]))
  }

  // ----- reading a pattern (the part of the regex syntax the compiler writes)

  predicate IsAlnum(c: char) {
    'a' <= c <= 'z' || 'A' <= c <= 'Z' || '0' <= c <= '9'
  }

  /** A character with a meaning of its own in a pattern. */
  predicate IsSpecial(c: char) {
    c in ".^$*+?{[\\|()"
  }

  function ReadAlts(text: string, current: string): Option<(seq<string>, string)>
    decreases |text|
  {
    if text == "" then None
    else if text[0] == ')' then Some(([current], text[1..]))
    else if text[0] == '|' then
      match ReadAlts(text[1..], "")
      case None => None
      case Some((alts, rest)) => Some(([current] + alts, rest))
    else if text[0] == '\\' then
      if |text| == 1 || IsAlnum(text[1]) then None else ReadAlts(text[2..], current + [text[1]])
    else if IsSpecial(text[0]) then None
    else ReadAlts(text[1..], current + [text[0]])
  }

  function ReadAtom(text: string): Option<(Node, string)>
    requires text != ""
  {
    if text[0] == '.' then Some((Any, text[1..]))
    else if "[^/]" <= text then Some((NotSlash, text[4..]))
    else if "(?:" <= text then
      match ReadAlts(text[3..], "")
      case None => None
      case Some((alts, rest)) => Some((Group(alts), rest))
    else if text[0] == '\\' then
      if |text| == 1 || IsAlnum(text[1]) then None else Some((Chr(text[1]), text[2..]))
    else if IsSpecial(text[0]) then None
    else Some((Chr(text[0]), text[1..]))
  }

  function ReadNodes(text: string): Option<seq<Node>>
    decreases |text|
  {
    if text == "" then Some([])
    else
      match ReadAtom(text)
      case None => None
      case Some((atom, rest)) =>
        if |rest| >= |text| then None
        else
          var starred := rest != "" && rest[0] == '*';
          match ReadNodes(if starred then rest[1..] else rest)
          case None => None
          case Some(nodes) => Some([if starred then Star(atom) else atom] + nodes)
  }

  function ReadPattern(pattern: string): Option<seq<Node>> {
    if |pattern| >= 2 && pattern[0] == '^' && pattern[|pattern| - 1] == '$'
    then ReadNodes(pattern[1..|pattern| - 1]) else None
  }

  /** `re.compile(pattern).match(path) is not None`. */
  predicate PatternMatches(pattern: string, path: string) {
    var nodes := ReadPattern(pattern);
    nodes.Some? && Accepts(nodes.value, path)
  }

  // ----- writing a pattern

  /** `re.escape` of one character. */
  function EscapeChar(c: char): string {
    if c in "()[]{}?*+-|^$\\.&~# \t\n\r\U{000b}\U{000c}" then ['\\', c] else [c]
  }

  function Escape(s: string): string {
    if s == "" then "" else EscapeChar(s[0]) + Escape(s[1..])
  }

  function EscapeAlts(alts: seq<string>): (r: seq<string>)
    ensures |r| == |alts|
  {
    if alts == [] then [] else [Escape(alts[0])] + EscapeAlts(alts[1..])
  }

  function Render(node: Node): string {
    match node
    case Any => "."
    case NotSlash => "[^/]"
    case Chr(c) => if c in ".+^$()|{" then ['\\', c] else [c]
    case Group(alts) => "(?:" + Join("|", EscapeAlts(alts)) + ")"
    case Star(body) => Render(body) + "*"
  }

  function RenderAll(nodes: seq<Node>): string {
    if nodes == [] then "" else Render(nodes[0]) + RenderAll(nodes[1..])
  }

  /** The node the scanner emits at the head of the glob, and what is left to scan. */
  function ScanHead(glob: string): (step: (Node, string))
    requires glob != ""
    ensures |step.1| < |glob| && step.1 == glob[|glob| - |step.1|..]
  {
    if StartsDoubleStar(glob) then (Star(Any), AfterDoubleStar(glob))
    else if glob[0] == '*' then (Star(NotSlash), glob[1..])
    else if glob[0] == '?' then (NotSlash, glob[1..])
    else if glob[0] == '{' && CloseBrace(glob).Some? then
      var close := CloseBrace(glob).value;
      (Group(Split(glob[1..close], ',')), glob[close + 1..])
    else (Chr(glob[0]), glob[1..])
  }

  function Scan(glob: string): seq<Node>
    decreases |glob|
  {
    if glob == "" then [] else [ScanHead(glob).0] + Scan(ScanHead(glob).1)
  }

  /** The text of the compiled pattern. */
  function PatternOf(glob: string): string {
    "^" + RenderAll(Scan(glob)) + "$"
  }

  /** One turn of the scanner at index `i`: the text it appends and the index it goes to. */
  method ScanStep(glob: string, i: nat) returns (part: string, next: nat)
    requires i < |glob|
    ensures i < next <= |glob|
    ensures part == Render(ScanHead(glob[i..]).0) && glob[next..] == ScanHead(glob[i..]).1
  {
    var ch := glob[i];
    if i + 1 < |glob| && ch == '*' && glob[i + 1] == '*' {
      part, next := ".*", i + 2;
      if next < |glob| && glob[next] == '/' {
        next := next + 1;
      }
      HeadDoubleStar(glob, i, next);
    } else if ch == '{' {
      part, next := ScanBrace(glob, i);
    } else {
      part := ScanSingle(glob, i);
      next := i + 1;
    }
  }

  method ScanBrace(glob: string, i: nat) returns (part: string, next: nat)
    requires i < |glob| && glob[i] == '{'
    ensures i < next <= |glob|
    ensures part == Render(ScanHead(glob[i..]).0) && glob[next..] == ScanHead(glob[i..]).1
  {
    var close := CloseBrace(glob[i..]);
    if close.None? {
      part, next := "\\{", i + 1;
      HeadSingle(glob, i);
    } else {
      var alternatives := Split(glob[i + 1..i + close.value], ',');
      part := "(?:" + Join("|", EscapeAlts(alternatives)) + ")";
      next := i + close.value + 1;
      HeadBraces(glob, i, close.value);
    }
  }

  method ScanSingle(glob: string, i: nat) returns (part: string)
    requires i < |glob| && glob[i] != '{' && !StartsDoubleStar(glob[i..])
    ensures part == Render(ScanHead(glob[i..]).0) && glob[i + 1..] == ScanHead(glob[i..]).1
  {
    var ch := glob[i];
    if ch == '*' {
      part := "[^/]*";
    } else if ch == '?' {
      part := "[^/]";
    } else if ch in ".+^$()|" {
      part := ['\\', ch];
    } else {
      part := [ch];
    }
    HeadSingle(glob, i);
  }

  /** The index-driven scanner: writes the pattern of the scanned nodes. */
  method GlobToRegex(glob: string) returns (pattern: string)
    ensures pattern == PatternOf(glob)
  {
    var parts: seq<string> := [];
    var i := 0;
    while i < |glob|
      invariant 0 <= i <= |glob|
      invariant Concat(parts) + RenderAll(Scan(glob[i..])) == RenderAll(Scan(glob))
      decreases |glob| - i
    {
      var part, next := ScanStep(glob, i);
      Emit(parts, ScanHead(glob[i..]).0, glob, i, next);
      parts := parts + [part];
      i := next;
    }
    pattern := "^" + Concat(parts) + "$";
  }

  lemma {:induction false} ConcatAppend(parts: seq<string>, part: string)
    ensures Concat(parts + [part]) == Concat(parts) + part
  {
    if parts == [] {
      assert parts + [part] == [part];
    } else {
      ConcatAppend(parts[1..], part);
      assert (parts + [part])[1..] == parts[1..] + [part];
    }
  }

  lemma HeadDoubleStar(glob: string, i: nat, next: nat)
    requires i + 1 < |glob| && glob[i] == '*' && glob[i + 1] == '*'
    requires next == if i + 2 < |glob| && glob[i + 2] == '/' then i + 3 else i + 2
    ensures ScanHead(glob[i..]) == (Star(Any), glob[next..])
  {
    assert glob[i..][2..] == glob[i + 2..] && (|glob| > i + 2 ==> glob[i..][3..] == glob[i + 3..]);
  }

  lemma HeadBraces(glob: string, i: nat, close: nat)
    requires i < |glob| && glob[i] == '{' && CloseBrace(glob[i..]) == Some(close)
    ensures ScanHead(glob[i..]) == (Group(Split(glob[i + 1..i + close], ',')), glob[i + close + 1..])
  {
    assert glob[i..][1..close] == glob[i + 1..i + close];
    assert glob[i..][close + 1..] == glob[i + close + 1..];
  }

  lemma HeadSingle(glob: string, i: nat)
    requires i < |glob|
    requires !StartsDoubleStar(glob[i..]) && (glob[i] == '{' ==> CloseBrace(glob[i..]).None?)
    ensures ScanHead(glob[i..])
         == (if glob[i] == '*' then Star(NotSlash) else if glob[i] == '?' then NotSlash else Chr(glob[i]), glob[i + 1..])
  {
    assert glob[i..][1..] == glob[i + 1..];
  }

  lemma Regroup(a: string, b: string, c: string)
    ensures a + b + c == a + (b + c)
  {
  }

  /** Emitting one part keeps what has been written plus what is still to be written. */
  lemma Emit(parts: seq<string>, node: Node, glob: string, i: nat, next: nat)
    requires i < next <= |glob|
    requires ScanHead(glob[i..]) == (node, glob[next..])
    ensures Concat(parts + [Render(node)]) + RenderAll(Scan(glob[next..])) == Concat(parts) + RenderAll(Scan(glob[i..]))
  {
    ConcatAppend(parts, Render(node));
    var tail := Scan(glob[next..]);
    assert Scan(glob[i..]) == [node] + tail;
    assert ([node] + tail)[1..] == tail;
    assert RenderAll([node] + tail) == Render(node) + RenderAll(tail);
    Regroup(Concat(parts), Render(node), RenderAll(tail));
  }

  // ----- the pattern reads back as the scanned nodes

  /** Outside braces, `[` and `\` go into the pattern unescaped; this says the glob has none. */
  predicate InScope(glob: string) {
    Chr('[') !in Scan(glob) && Chr('\\') !in Scan(glob)
  }

  /** The nodes the scanner can emit for a glob in scope. */
  predicate Emitted(node: Node) {
    match node
    case Any => false
    case NotSlash => true
    case Chr(c) => c !in "*?[\\"
    case Group(alts) => alts != []
    case Star(body) => body == Any || body == NotSlash
  }

  lemma {:induction false} ScanEmits(glob: string)
    requires InScope(glob)
    ensures forall node :: node in Scan(glob) ==> Emitted(node)
    decreases |glob|
  {
    if glob != "" {
      var (node, rest) := ScanHead(glob);
      assert Scan(glob) == [node] + Scan(rest);
      assert node in Scan(glob) && forall m :: m in Scan(rest) ==> m in Scan(glob);
      ScanEmits(rest);
    }
  }

  lemma {:induction false} ReadEscaped(s: string, text: string, current: string)
    ensures ReadAlts(Escape(s) + text, current) == ReadAlts(text, current + s)
    decreases |s|
  {
    if s == "" {
      assert Escape(s) + text == text && current + s == current;
    } else {
      var tail := Escape(s[1..]) + text;
      assert Escape(s) + text == EscapeChar(s[0]) + tail;
      ReadEscapedChar(s[0], tail, current);
      ReadEscaped(s[1..], text, current + [s[0]]);
      assert current + [s[0]] + s[1..] == current + s;
    }
  }

  lemma ReadEscapedChar(c: char, tail: string, current: string)
    ensures ReadAlts(EscapeChar(c) + tail, current) == ReadAlts(tail, current + [c])
  {
    var text := EscapeChar(c) + tail;
    if |EscapeChar(c)| == 2 {
      assert text[2..] == tail;
    } else {
      assert text[1..] == tail;
    }
  }

  lemma {:induction false} ReadJoined(alts: seq<string>, rest: string)
    requires alts != []
    ensures ReadAlts(Join("|", EscapeAlts(alts)) + ")" + rest, "") == Some((alts, rest))
    decreases |alts|
  {
    assert "" + alts[0] == alts[0];
    if |alts| == 1 {
      ReadEscaped(alts[0], ")" + rest, "");
      assert EscapeAlts(alts) == [Escape(alts[0])];
      assert Escape(alts[0]) + ")" + rest == Escape(alts[0]) + (")" + rest);
      assert (")" + rest)[1..] == rest && alts == [alts[0]];
    } else {
      ReadJoined(alts[1..], rest);
      var tail := Join("|", EscapeAlts(alts[1..])) + ")" + rest;
      JoinCons(alts, rest);
      ReadEscaped(alts[0], "|" + tail, "");
      ReadBar(tail, alts[0]);
      assert alts == [alts[0]] + alts[1..];
    }
  }

  lemma JoinCons(alts: seq<string>, rest: string)
    requires |alts| > 1
    ensures Join("|", EscapeAlts(alts)) + ")" + rest
         == Escape(alts[0]) + ("|" + (Join("|", EscapeAlts(alts[1..])) + ")" + rest))
  {
    assert EscapeAlts(alts)[1..] == EscapeAlts(alts[1..]);
    var j := Join("|", EscapeAlts(alts[1..]));
    assert Join("|", EscapeAlts(alts)) == Escape(alts[0]) + "|" + j;
    Regroup(Escape(alts[0]) + "|" + j, ")", rest);
    Regroup(Escape(alts[0]) + "|", j, ")" + rest);
    Regroup(Escape(alts[0]), "|", j + (")" + rest));
    Regroup(j, ")", rest);
  }

  lemma ReadBar(tail: string, current: string)
    requires ReadAlts(tail, "").Some?
    ensures var (alts, rest) := ReadAlts(tail, "").value; ReadAlts("|" + tail, current) == Some(([current] + alts, rest))
  {
    assert ("|" + tail)[1..] == tail;
  }

  lemma ReadRenderedChar(c: char, rest: string)
    requires Emitted(Chr(c))
    ensures Render(Chr(c)) + rest != "" && ReadAtom(Render(Chr(c)) + rest) == Some((Chr(c), rest))
  {
    var text := Render(Chr(c)) + rest;
    if |Render(Chr(c))| == 2 {
      assert text[2..] == rest;
    } else {
      assert text[1..] == rest;
    }
  }

  lemma ReadRenderedGroup(alts: seq<string>, rest: string)
    requires Emitted(Group(alts))
    ensures Render(Group(alts)) + rest != "" && ReadAtom(Render(Group(alts)) + rest) == Some((Group(alts), rest))
  {
    ReadJoined(alts, rest);
    assert (Render(Group(alts)) + rest)[3..] == Join("|", EscapeAlts(alts)) + ")" + rest;
  }

  lemma ReadRendered(node: Node, rest: string)
    requires Emitted(node) && !node.Star?
    ensures Render(node) + rest != "" && ReadAtom(Render(node) + rest) == Some((node, rest))
  {
    match node
    case NotSlash => assert ("[^/]" + rest)[4..] == rest;
    case Chr(c) => ReadRenderedChar(c, rest);
    case Group(alts) => ReadRenderedGroup(alts, rest);
  }

  lemma ReadStarred(body: Node, rest: string)
    requires body == Any || body == NotSlash
    ensures Render(body) + "*" + rest != "" && ReadAtom(Render(body) + "*" + rest) == Some((body, "*" + rest))
  {
    var text := Render(body) + "*" + rest;
    if body == NotSlash {
      assert text[4..] == "*" + rest;
    } else {
      assert text[1..] == "*" + rest;
    }
  }

  lemma {:induction false} ReadAllRendered(nodes: seq<Node>)
    requires forall node :: node in nodes ==> Emitted(node)
    ensures ReadNodes(RenderAll(nodes)) == Some(nodes)
    ensures RenderAll(nodes) != "" ==> RenderAll(nodes)[0] != '*'
    decreases |nodes|
  {
    if nodes != [] {
      var node, tail := nodes[0], RenderAll(nodes[1..]);
      assert node in nodes;
      ReadAllRendered(nodes[1..]);
      assert nodes == [node] + nodes[1..];
      if node.Star? {
        ReadStarred(node.body, tail);
        assert RenderAll(nodes) == Render(node.body) + "*" + tail;
        assert ("*" + tail)[1..] == tail;
      } else {
        ReadRendered(node, tail);
      }
    }
  }

  /** For every glob in scope, the text the program writes is a pattern whose reading is the scan. */
  lemma PatternReadsBack(glob: string)
    requires InScope(glob)
    ensures ReadPattern(PatternOf(glob)) == Some(Scan(glob))
  {
    ScanEmits(glob);
    ReadAllRendered(Scan(glob));
    var pattern := PatternOf(glob);
    assert pattern[1..|pattern| - 1] == RenderAll(Scan(glob));
  }

  // ----- compilation preserves meaning

  lemma {:induction false} StarOfOne(body: Node, s: string)
    requires body == Any || body == NotSlash
    ensures MatchOne(Star(body), s) <==> (if body == Any then '\n' else '/') !in s
    decreases |s|
  {
    var bad := if body == Any then '\n' else '/';
    if s != "" {
      StarOfOne(body, s[1..]);
      assert s == s[..1] + s[1..];
      assert s[..1] == [s[0]];
      if bad !in s {
        assert MatchOne(body, s[..1]) && MatchOne(Star(body), s[1..]);
      }
      if MatchOne(Star(body), s) {
        var k :| 1 <= k <= |s| && MatchOne(body, s[..k]) && MatchOne(Star(body), s[k..]);
        assert k == 1;
      }
    }
  }

  /** A node that matches one character is matched at the head of the text. */
  lemma MatchSeqSingle(nodes: seq<Node>, s: string)
    requires nodes != [] && (nodes[0].NotSlash? || nodes[0].Chr?)
    ensures MatchSeq(nodes, s) <==> s != "" && MatchOne(nodes[0], s[..1]) && MatchSeq(nodes[1..], s[1..])
  {
    if MatchSeq(nodes, s) {
      var k :| 0 <= k <= |s| && MatchOne(nodes[0], s[..k]) && MatchSeq(nodes[1..], s[k..]);
      assert k == 1;
    }
  }

  /** The direct meaning of a glob that starts with a character or `?`. */
  lemma MeansBySingle(glob: string, path: string)
    requires glob != "" && (ScanHead(glob).0.NotSlash? || ScanHead(glob).0.Chr?)
    ensures var (node, rest) := ScanHead(glob);
      Means(glob, path) <==> path != "" && MatchOne(node, path[..1]) && Means(rest, path[1..])
  {
  }

  /** On text without a line feed the scanned nodes match exactly what the glob means. */
  lemma {:induction false} ScanPreservesMeaning(glob: string, path: string)
    requires '\n' !in path
    ensures MatchSeq(Scan(glob), path) <==> Means(glob, path)
    decreases |glob|
  {
    if glob != "" {
      var (node, rest) := ScanHead(glob);
      assert Scan(glob)[0] == node && Scan(glob)[1..] == Scan(rest);
      forall k | 0 <= k <= |path|
        ensures MatchSeq(Scan(rest), path[k..]) <==> Means(rest, path[k..])
      {
        ScanPreservesMeaning(rest, path[k..]);
      }
      if node.NotSlash? || node.Chr? {
        MatchSeqSingle(Scan(glob), path);
        MeansBySingle(glob, path);
      } else {
        MeansByHead(glob, path);
      }
    }
  }

  /** The direct meaning of a glob that starts with a run or with braces, by its head node. */
  lemma MeansByHead(glob: string, path: string)
    requires glob != "" && '\n' !in path
    requires ScanHead(glob).0.Star? || ScanHead(glob).0.Group?
    ensures var (node, rest) := ScanHead(glob);
      Means(glob, path) <==> exists k :: 0 <= k <= |path| && MatchOne(node, path[..k]) && Means(rest, path[k..])
  {
    var (node, rest) := ScanHead(glob);
    if node.Star? {
      forall k | 0 <= k <= |path|
        ensures MatchOne(node, path[..k]) <==> (node.body == Any || '/' !in path[..k])
      {
        StarOfOne(node.body, path[..k]);
      }
      MeansByRun(glob, path);
    }
  }

  lemma MeansByRun(glob: string, path: string)
    requires glob != "" && ScanHead(glob).0.Star?
    ensures var (node, rest) := ScanHead(glob);
      Means(glob, path)
      <==> exists k :: 0 <= k <= |path| && (node.body == Any || '/' !in path[..k]) && Means(rest, path[k..])
  {
  }

  /** The compiled pattern of a glob in scope accepts a path without line feeds exactly when the
      glob means it. */
  lemma CompilePreservesMeaning(glob: string, path: string)
    requires InScope(glob) && '\n' !in path
    ensures PatternMatches(PatternOf(glob), path) <==> Means(glob, path)
  {
    PatternReadsBack(glob);
    ScanPreservesMeaning(glob, path);
  }

  // ----- paths with a line feed: the condition is exact

  /** A glob of `?` and slashes in the shape of the text. */
  function Shape(s: string): (glob: string)
    ensures |glob| == |s|
    ensures forall k :: 0 <= k < |s| ==> glob[k] == if s[k] == '/' then '/' else '?'
  {
    seq(|s|, k requires 0 <= k < |s| => if s[k] == '/' then '/' else '?')
  }

  lemma {:induction false} ShapeMatches(s: string, path: string)
    ensures InScope(Shape(s))
    ensures Means(Shape(s), path) ==> |path| == |s|
    ensures MatchSeq(Scan(Shape(s)), s)
    decreases |s|
  {
    if s != "" {
      assert Shape(s)[1..] == Shape(s[1..]);
      assert Scan(Shape(s)) == [ScanHead(Shape(s)).0] + Scan(Shape(s[1..]));
      if path != "" {
        ShapeMatches(s[1..], path[1..]);
      } else {
        ShapeMatches(s[1..], path);
      }
      MatchSeqSingle(Scan(Shape(s)), s);
      assert s[..1] == [s[0]];
    }
  }

  lemma DoubleStarScan()
    ensures Scan("**") == [Star(Any)] && InScope("**") && AfterDoubleStar("**") == ""
  {
    assert Scan("") == [];
  }

  /** `**` alone: it means every text, its pattern wants no line feed before the last character. */
  lemma DoubleStarAlone(path: string)
    ensures Means("**", path)
    ensures InScope("**")
    ensures Accepts(Scan("**"), path) ==> forall k :: 0 <= k < |path| - 1 ==> path[k] != '\n'
  {
    DoubleStarScan();
    assert path[|path|..] == "";
    assert Means("**", path);
    AnyRunAlone(path);
    if path != "" {
      AnyRunAlone(path[..|path| - 1]);
    }
  }

  lemma SingleNode(node: Node, s: string)
    requires MatchSeq([node], s)
    ensures MatchOne(node, s)
  {
    var nodes := [node];
    var k :| 0 <= k <= |s| && MatchOne(nodes[0], s[..k]) && MatchSeq(nodes[1..], s[k..]);
    assert nodes[1..] == [];
    assert s[k..] == "";
    assert s[..k] == s;
  }

  lemma AnyRunAlone(s: string)
    ensures MatchSeq([Star(Any)], s) ==> '\n' !in s
  {
    if MatchSeq([Star(Any)], s) {
      SingleNode(Star(Any), s);
      StarOfOne(Any, s);
    }
  }

  ghost predicate GlobsAgree(path: string) {
    forall glob :: InScope(glob) ==> (PatternMatches(PatternOf(glob), path) <==> Means(glob, path))
  }

  /** Every glob in scope is compiled faithfully for a path exactly when the path has no line feed. */
  lemma FaithfulExactlyWithoutLineFeed(path: string)
    ensures GlobsAgree(path) <==> '\n' !in path
  {
    if '\n' !in path {
      forall glob | InScope(glob)
        ensures PatternMatches(PatternOf(glob), path) <==> Means(glob, path)
      {
        CompilePreservesMeaning(glob, path);
      }
    } else if path[|path| - 1] == '\n' && '\n' !in path[..|path| - 1] {
      var s := path[..|path| - 1];
      ShapeMatches(s, path);
      PatternReadsBack(Shape(s));
      assert PatternMatches(PatternOf(Shape(s)), path) && !Means(Shape(s), path);
    } else {
      DoubleStarAlone(path);
      PatternReadsBack("**");
      var k :| 0 <= k < |path| && path[k] == '\n';
      assert !PatternMatches(PatternOf("**"), path);
    }
  }

  // ----- `**` by whole path segments

  /** The documented reading: `**` and the slash behind it stand for any number of whole path segments.
      Everything else is as in `Means`. */
  predicate SegmentMeans(glob: string, path: string)
    decreases |glob|
  {
    if glob == "" then path == ""
    else if StartsDoubleStar(glob) then
      exists k :: 0 <= k <= |path| && (|glob| > 2 && glob[2] == '/' ==> k == 0 || path[k - 1] == '/')
                  && SegmentMeans(AfterDoubleStar(glob), path[k..])
    else if glob[0] == '*' then
      exists k :: 0 <= k <= |path| && '/' !in path[..k] && SegmentMeans(glob[1..], path[k..])
    else if glob[0] == '?' then
      path != "" && path[0] != '/' && SegmentMeans(glob[1..], path[1..])
    else if glob[0] == '{' && CloseBrace(glob).Some? then
      var close := CloseBrace(glob).value;
      exists k :: 0 <= k <= |path| && path[..k] in Split(glob[1..close], ',') && SegmentMeans(glob[close + 1..], path[k..])
    else
      path != "" && path[0] == glob[0] && SegmentMeans(glob[1..], path[1..])
  }

  /** Every `**` with a slash is directly followed by another star. */
  predicate SegmentsAbsorbed(glob: string)
    decreases |glob|
  {
    glob == "" || (
      && (StartsDoubleStar(glob) && |glob| > 2 && glob[2] == '/' ==> |glob| > 3 && glob[3] == '*')
      && SegmentsAbsorbed(ScanHead(glob).1))
  }

  lemma {:induction false} SegmentsAreMeant(glob: string, path: string)
    requires SegmentMeans(glob, path)
    ensures Means(glob, path)
    decreases |glob|
  {
    if glob != "" {
      var rest := ScanHead(glob).1;
      forall k | 0 <= k <= |path| && SegmentMeans(rest, path[k..])
        ensures Means(rest, path[k..])
      {
        SegmentsAreMeant(rest, path[k..]);
      }
    }
  }

  /** A glob that starts with a star takes slash-free text in front. */
  lemma StarTakesMore(glob: string, path: string, k: nat)
    requires glob != "" && glob[0] == '*' && k <= |path| && '/' !in path[..k] && Means(glob, path[k..])
    ensures Means(glob, path)
  {
    var tail := path[k..];
    if StartsDoubleStar(glob) {
      var m :| 0 <= m <= |tail| && Means(AfterDoubleStar(glob), tail[m..]);
      assert path[k + m..] == tail[m..];
    } else {
      var m :| 0 <= m <= |tail| && '/' !in tail[..m] && Means(glob[1..], tail[m..]);
      assert path[..k + m] == path[..k] + tail[..m] && path[k + m..] == tail[m..];
    }
  }

  /** Where the path segment around `k` starts. */
  function SegmentStart(path: string, k: nat): (j: nat)
    requires k <= |path|
    ensures j <= k && '/' !in path[j..k] && (j == 0 || path[j - 1] == '/')
  {
    if k == 0 || path[k - 1] == '/' then k
    else
      var j := SegmentStart(path, k - 1);
      assert path[j..k] == path[j..k - 1] + [path[k - 1]];
      j
  }

  lemma {:induction false} MeantBySegments(glob: string, path: string)
    requires SegmentsAbsorbed(glob) && Means(glob, path)
    ensures SegmentMeans(glob, path)
    decreases |glob|
  {
    if glob != "" {
      var rest := ScanHead(glob).1;
      forall k | 0 <= k <= |path| && Means(rest, path[k..])
        ensures SegmentMeans(rest, path[k..])
      {
        MeantBySegments(rest, path[k..]);
      }
      if StartsDoubleStar(glob) && |glob| > 2 && glob[2] == '/' {
        var k :| 0 <= k <= |path| && Means(rest, path[k..]);
        var j := SegmentStart(path, k);
        var whole := path[j..];
        assert whole[..k - j] == path[j..k] && whole[k - j..] == path[k..];
        StarTakesMore(rest, whole, k - j);
      }
    }
  }

  /** The two readings agree on every path when each `**` with a slash is directly followed by a star. */
  lemma SegmentReadingsAgree(glob: string, path: string)
    requires SegmentsAbsorbed(glob)
    ensures Means(glob, path) <==> SegmentMeans(glob, path)
  {
    if Means(glob, path) {
      MeantBySegments(glob, path);
    }
    if SegmentMeans(glob, path) {
      SegmentsAreMeant(glob, path);
    }
  }

  /** With a literal behind it they do not: it may then be the end of a segment only. */
  lemma SegmentReadingsDiffer(c: char, d: char)
    requires c !in "*?{/" && d != '/' && d != c
    ensures var glob := "**/" + [c]; Means(glob, [d, c]) && !SegmentMeans(glob, [d, c])
  {
    var glob, path := "**/" + [c], [d, c];
    assert glob[3..] == [c] && AfterDoubleStar(glob) == [c] && [c][1..] == "";
    assert path[1..] == [c] && path[2..] == "" && path[0..] == path;
    assert Means([c], path[1..]);
    assert !SegmentMeans([c], path) && !SegmentMeans([c], path[2..]);
  }

  // ----- the second matcher, for globs without `**` and braces

  /** `_glob_has_meta`. */
  predicate HasMeta(glob: string) {
    '{' in glob || exists i :: 0 <= i < |glob| - 1 && glob[i] == '*' && glob[i + 1] == '*'
  }

  /** `fnmatch.fnmatch(path, glob)` for a glob without character classes: here `*` is any text and
      `?` any character, slashes included. */
  predicate FnMeans(glob: string, path: string)
    decreases |glob|
  {
    if glob == "" then path == ""
    else if glob[0] == '*' then exists k :: 0 <= k <= |path| && FnMeans(glob[1..], path[k..])
    else path != "" && (glob[0] == '?' || path[0] == glob[0]) && FnMeans(glob[1..], path[1..])
  }

  /** `_glob_match`. */
  predicate GlobMatch(path: string, glob: string) {
    if !HasMeta(glob) then FnMeans(glob, path) else PatternMatches(PatternOf(glob), path)
  }

  lemma SimpleHead(glob: string)
    requires glob != "" && !HasMeta(glob)
    ensures glob[0] != '{' && !StartsDoubleStar(glob) && !HasMeta(glob[1..])
    ensures IsSimple(glob) ==> IsSimple(glob[1..])
  {
    assert glob[0] in glob;
    assert '{' in glob[1..] ==> '{' in glob;
    assert forall i :: 0 <= i < |glob| - 2 ==> glob[1..][i] == glob[i + 1];
  }

  /** A glob that goes to `fnmatch` and has no character class for it to read. */
  predicate IsSimple(glob: string) {
    !HasMeta(glob) && '[' !in glob
  }

  /** For simple globs `fnmatch` accepts whatever the glob means, and on a path without slashes
      nothing else. */
  lemma {:induction false} FnmatchIsLooser(glob: string, path: string)
    requires IsSimple(glob)
    ensures Means(glob, path) ==> FnMeans(glob, path)
    ensures '/' !in path ==> (FnMeans(glob, path) ==> Means(glob, path))
    decreases |glob|
  {
    if glob != "" {
      SimpleHead(glob);
      forall k | 0 <= k <= |path|
        ensures Means(glob[1..], path[k..]) ==> FnMeans(glob[1..], path[k..])
        ensures '/' !in path ==> (FnMeans(glob[1..], path[k..]) ==> Means(glob[1..], path[k..]))
      {
        FnmatchIsLooser(glob[1..], path[k..]);
      }
    }
  }

  function Slashes(s: string): nat {
    if s == "" then 0 else (if s[0] == '/' then 1 else 0) + Slashes(s[1..])
  }

  lemma {:induction false} NoSlashes(s: string, k: nat)
    requires k <= |s| && '/' !in s[..k]
    ensures Slashes(s) == Slashes(s[k..])
  {
    if k > 0 {
      assert s[0] == s[..k][0] && s[1..][..k - 1] == s[..k][1..] && s[1..][k - 1..] == s[k..];
      NoSlashes(s[1..], k - 1);
    }
  }

  /** A simple glob fixes the number of slashes of the paths it means. */
  lemma {:induction false} MeansFixesSlashes(glob: string, path: string)
    requires !HasMeta(glob) && Means(glob, path)
    ensures Slashes(path) == Slashes(glob)
    decreases |glob|
  {
    if glob != "" {
      SimpleHead(glob);
      if glob[0] == '*' {
        var k :| 0 <= k <= |path| && '/' !in path[..k] && Means(glob[1..], path[k..]);
        NoSlashes(path, k);
        MeansFixesSlashes(glob[1..], path[k..]);
      } else {
        MeansFixesSlashes(glob[1..], path[1..]);
      }
    }
  }

  lemma {:induction false} SlashesSplit(s: string, k: nat)
    requires k <= |s|
    ensures Slashes(s) == Slashes(s[..k]) + Slashes(s[k..])
    ensures Slashes(s[..k]) == 0 ==> '/' !in s[..k]
  {
    if k > 0 {
      assert s[..k][0] == s[0] && s[..k][1..] == s[1..][..k - 1] && s[1..][k - 1..] == s[k..];
      SlashesSplit(s[1..], k - 1);
      assert s[..k] == [s[0]] + s[1..][..k - 1];
    }
  }

  /** What `fnmatch` accepts has at least the slashes of the glob, and with no more of them it is meant. */
  lemma {:induction false} FnmatchCountsSlashes(glob: string, path: string)
    requires IsSimple(glob) && FnMeans(glob, path)
    ensures Slashes(path) >= Slashes(glob)
    ensures Slashes(path) == Slashes(glob) ==> Means(glob, path)
    decreases |glob|
  {
    if glob != "" {
      SimpleHead(glob);
      if glob[0] == '*' {
        var k :| 0 <= k <= |path| && FnMeans(glob[1..], path[k..]);
        SlashesSplit(path, k);
        FnmatchCountsSlashes(glob[1..], path[k..]);
      } else {
        FnmatchCountsSlashes(glob[1..], path[1..]);
      }
    }
  }

  /** For a simple glob `fnmatch` accepts what the glob means and, beyond that, only paths with more
      slashes. */
  lemma SimpleGlobMeansExactly(glob: string, path: string)
    requires IsSimple(glob)
    ensures Means(glob, path) <==> FnMeans(glob, path) && Slashes(path) == Slashes(glob)
  {
    FnmatchIsLooser(glob, path);
    if Means(glob, path) {
      MeansFixesSlashes(glob, path);
    }
    if FnMeans(glob, path) {
      FnmatchCountsSlashes(glob, path);
    }
  }

  /** The glob with every wildcard replaced by a slash. */
  function Slashed(glob: string): (path: string)
    ensures |path| == |glob|
  {
    if glob == "" then "" else [if glob[0] == '*' || glob[0] == '?' then '/' else glob[0]] + Slashed(glob[1..])
  }

  lemma {:induction false} SlashedMatches(glob: string)
    ensures FnMeans(glob, Slashed(glob))
    ensures Slashes(Slashed(glob)) >= Slashes(glob)
    ensures '*' in glob || '?' in glob ==> Slashes(Slashed(glob)) > Slashes(glob)
  {
    if glob != "" {
      SlashedMatches(glob[1..]);
      assert Slashed(glob)[1..] == Slashed(glob[1..]);
    }
  }

  /** The documentation says `*` and `?` never match a slash. For a simple glob the program keeps
      to that on all paths exactly when the glob has no wildcard at all. */
  lemma SimpleGlobFaithfulExactlyWithoutWildcards(glob: string)
    requires IsSimple(glob)
    ensures (forall path :: GlobMatch(path, glob) <==> Means(glob, path)) <==> '*' !in glob && '?' !in glob
  {
    if '*' in glob || '?' in glob {
      SlashedMatches(glob);
      if Means(glob, Slashed(glob)) {
        MeansFixesSlashes(glob, Slashed(glob));
      }
      assert GlobMatch(Slashed(glob), glob) && !Means(glob, Slashed(glob));
    } else {
      forall path
        ensures GlobMatch(path, glob) <==> Means(glob, path)
      {
        WithoutWildcards(glob, path);
      }
    }
  }

  lemma {:induction false} WithoutWildcards(glob: string, path: string)
    requires IsSimple(glob) && '*' !in glob && '?' !in glob
    ensures FnMeans(glob, path) <==> Means(glob, path)
    decreases |glob|
  {
    if glob != "" && path != "" {
      SimpleHead(glob);
      assert glob[0] in glob;
      WithoutWildcards(glob[1..], path[1..]);
    }
  }
}
