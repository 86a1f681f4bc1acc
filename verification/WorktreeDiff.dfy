/** What `git diff HEAD` prints for the changes in a worktree, and which files are read out of it
    (`_parse_modified_files`). */
module WorktreeDiff {
  import opened Common
  import opened TextOrder

  // ----- what git prints

  /** How a path of the worktree differs from HEAD. A file the applied diff has created stays
      untracked. The lines of a body may be anything. */
  datatype Kind =
    | Edited(body: seq<string>)
    | Deleted(body: seq<string>)
    | DeletedEmpty
    | Created
    | ModeOnly
    | Binary

  datatype Change = Change(path: string, kind: Kind)

  function Body(c: Change): seq<string> {
    match c.kind
    case Edited(body) => body
    case Deleted(body) => body
    case _ => []
  }

  /** Only these have lines that name the file before and after. */
  predicate HasHeaders(c: Change) {
    c.kind.Edited? || c.kind.Deleted?
  }

  /** Git puts such names in quotes, with escapes: control characters, quotes, backslashes and
      everything beyond ASCII. */
  predicate NeedsQuotes(path: string) {
    exists c :: c in path && (c < ' ' || c == '\"' || c == '\\' || c > '~')
  }

  /** A line that names a file; a name with a space is followed by a tab. */
  function Header(mark: string, side: string, path: string): string {
    if NeedsQuotes(path) then mark + "\"" + side + path + "\""
    else mark + side + path + (if ' ' in path then "\t" else "")
  }

  /** The lines about a change before its body. */
  function Front(c: Change): seq<string> {
    var before, after := Header("--- ", "a/", c.path), Header("+++ ", "b/", c.path);
    match c.kind
    case Edited(_) => ["diff --git " + c.path, "index", before, after]
    case Deleted(_) => ["diff --git " + c.path, "deleted file mode", "index", before, "+++ /dev/null"]
    case DeletedEmpty => ["diff --git " + c.path, "deleted file mode", "index"]
    case Created => []
    case ModeOnly => ["diff --git " + c.path, "old mode", "new mode"]
    case Binary => ["diff --git " + c.path, "index", "Binary files differ"]
  }

  function Shows(c: Change): seq<string> {
    Front(c) + Body(c)
  }

  function DiffLines(changes: seq<Change>): seq<string> {
    if changes == [] then [] else Shows(changes[0]) + DiffLines(changes[1..])
  }

  // ----- what is read out of it

  /** The name a line is taken to give. */
  function NameRead(line: string): Option<string> {
    if "+++ b/" <= line || "--- a/" <= line then Some(line[6..]) else None
  }

  predicate Gives(lines: seq<string>, p: string) {
    exists l :: l in lines && NameRead(l) == Some(p)
  }

  lemma OneMoreLine(lines: seq<string>, line: string, p: string)
    ensures Gives(lines + [line], p) <==> Gives(lines, p) || NameRead(line) == Some(p)
  {
    assert line in lines + [line];
    if l :| l in lines && NameRead(l) == Some(p) {
      assert l in lines + [line];
    }
  }

  predicate IsNamed(p: string, lines: seq<string>) {
    p != "/dev/null" && Gives(lines, p)
  }

  predicate StrictlySorted(files: seq<string>) {
    forall i, j :: 0 <= i < j < |files| ==> Leq(files[i], files[j]) && files[i] != files[j]
  }

  function Insert(p: string, files: seq<string>): seq<string> {
    if files == [] || (Leq(p, files[0]) && p != files[0]) then [p] + files
    else if p == files[0] then files
    else [files[0]] + Insert(p, files[1..])
  }

  /** The modified files: every name read, once, in order. */
  function FilesOf(lines: seq<string>): seq<string>
    decreases |lines|
  {
    if lines == [] then []
    else
      var before, name := FilesOf(lines[..|lines| - 1]), NameRead(lines[|lines| - 1]);
      if name.None? || name.value == "/dev/null" then before else Insert(name.value, before)
  }

  lemma {:induction false} InsertAdds(p: string, files: seq<string>)
    ensures forall q :: q in Insert(p, files) <==> q == p || q in files
  {
    if files != [] {
      InsertAdds(p, files[1..]);
      assert files == [files[0]] + files[1..];
    }
  }

  lemma {:induction false} InsertKeepsSorted(p: string, files: seq<string>)
    requires StrictlySorted(files)
    ensures StrictlySorted(Insert(p, files))
  {
    if files != [] {
      if Leq(p, files[0]) && p != files[0] {
        forall j | 0 <= j < |files|
          ensures Leq(p, files[j]) && p != files[j]
        {
          if j > 0 {
            LeqTransitive(p, files[0], files[j]);
            if p == files[j] {
              LeqAntisymmetric(p, files[0]);
            }
          }
        }
      } else if p != files[0] {
        LeqTotal(p, files[0]);
        InsertKeepsSorted(p, files[1..]);
        InsertAdds(p, files[1..]);
        var rest := Insert(p, files[1..]);
        forall j | 0 <= j < |rest|
          ensures Leq(files[0], rest[j]) && files[0] != rest[j]
        {
          assert rest[j] in rest;
        }
      }
    }
  }

  lemma {:induction false} FilesAreTheNamed(lines: seq<string>)
    ensures StrictlySorted(FilesOf(lines))
    ensures forall p :: p in FilesOf(lines) <==> IsNamed(p, lines)
    decreases |lines|
  {
    if lines != [] {
      var n := |lines| - 1;
      FilesAreTheNamed(lines[..n]);
      assert lines == lines[..n] + [lines[n]];
      var name := NameRead(lines[n]);
      if name.Some? {
        InsertAdds(name.value, FilesOf(lines[..n]));
        InsertKeepsSorted(name.value, FilesOf(lines[..n]));
      }
      forall p
        ensures IsNamed(p, lines) <==> IsNamed(p, lines[..n]) || (p != "/dev/null" && name == Some(p))
      {
        OneMoreLine(lines[..n], lines[n], p);
      }
    }
  }

  lemma TailOfListing(files: seq<string>, p: string)
    requires StrictlySorted(files) && files != []
    ensures p in files[1..] <==> p in files && p != files[0]
  {
    assert files == [files[0]] + files[1..];
    if p in files[1..] {
      var i :| 0 <= i < |files| - 1 && files[1..][i] == p;
      assert files[i + 1] == p;
    }
  }

  lemma SomeMember(files: seq<string>)
    ensures files != [] ==> exists p :: p in files
  {
    if files != [] {
      assert files[0] in files;
    }
  }

  /** A set has one ordered listing. */
  lemma {:induction false} SortedListingIsUnique(a: seq<string>, b: seq<string>)
    requires StrictlySorted(a) && StrictlySorted(b) && forall p :: p in a <==> p in b
    ensures a == b
    decreases |a|
  {
    if a == [] {
      SomeMember(b);
    } else {
      assert a[0] in b && b != [] && b[0] in a;
      var i :| 0 <= i < |b| && b[i] == a[0];
      var j :| 0 <= j < |a| && a[j] == b[0];
      if i > 0 && j > 0 {
        LeqAntisymmetric(a[0], b[0]);
      }
      assert a[0] == b[0];
      forall p
        ensures p in a[1..] <==> p in b[1..]
      {
        TailOfListing(a, p);
        TailOfListing(b, p);
      }
      SortedListingIsUnique(a[1..], b[1..]);
      assert a == [a[0]] + a[1..] && b == [b[0]] + b[1..];
    }
  }

  /** `sorted` of a set. */
  method SortedSet(names: set<string>) returns (files: seq<string>)
    ensures StrictlySorted(files) && forall p :: p in files <==> p in names
  {
    files := [];
    var left := names;
    while left != {}
      invariant left <= names && StrictlySorted(files)
      invariant forall p :: p in files <==> p in names - left
      decreases left
    {
      var p :| p in left;
      InsertAdds(p, files);
      InsertKeepsSorted(p, files);
      files := Insert(p, files);
      assert names - (left - {p}) == names - left + {p};
      left := left - {p};
    }
  }

  /** `_parse_modified_files`, on the lines of the diff. */
  method ParseModifiedFiles(lines: seq<string>) returns (files: seq<string>)
    ensures files == FilesOf(lines)
  {
    var names: set<string> := {};
    for k := 0 to |lines|
      invariant forall p :: p in names <==> Gives(lines[..k], p)
    {
      var line := lines[k];
      assert lines[..k + 1] == lines[..k] + [line];
      forall p {
        OneMoreLine(lines[..k], line, p);
      }
      if "+++ b/" <= line {
        names := names + {line[6..]};
      } else if "--- a/" <= line {
        names := names + {line[6..]};
      }
    }
    assert lines[..|lines|] == lines;
    names := names - {"/dev/null"};
    files := SortedSet(names);
    FilesAreTheNamed(lines);
    SortedListingIsUnique(files, FilesOf(lines));
  }

  // ----- which changes are seen

  /** What the header lines of a path are read as: nothing when it is quoted, and with a tab too many
      when it holds a space. */
  function HeaderRead(path: string): Option<string> {
    if NeedsQuotes(path) then None else Some(path + if ' ' in path then "\t" else "")
  }

  /** The change is listed under its own path. */
  predicate Shown(c: Change) {
    HasHeaders(c) && HeaderRead(c.path) == Some(c.path) && c.path != "/dev/null"
  }

  lemma {:induction false} LinesOfChanges(changes: seq<Change>, l: string)
    ensures l in DiffLines(changes) <==> exists c :: c in changes && l in Shows(c)
  {
    if changes != [] {
      LinesOfChanges(changes[1..], l);
      assert changes == [changes[0]] + changes[1..];
      assert changes[0] in changes;
    }
  }

  lemma QuotedIsNotRead(path: string)
    requires NeedsQuotes(path)
    ensures NameRead(Header("--- ", "a/", path)) == NameRead(Header("+++ ", "b/", path)) == None
  {
    var a, b := Header("--- ", "a/", path), Header("+++ ", "b/", path);
    assert a[0] == '-' && a[4] == '\"' && "--- a/"[4] == 'a' && "+++ b/"[0] == '+';
    assert b[0] == '+' && b[4] == '\"' && "+++ b/"[4] == 'b' && "--- a/"[0] == '-';
  }

  lemma PlainIsRead(tail: string)
    ensures NameRead("--- a/" + tail) == NameRead("+++ b/" + tail) == Some(tail)
  {
    assert ("--- a/" + tail)[6..] == tail && ("+++ b/" + tail)[6..] == tail;
  }

  lemma HeadersRead(path: string)
    ensures NameRead(Header("--- ", "a/", path)) == NameRead(Header("+++ ", "b/", path)) == HeaderRead(path)
  {
    if NeedsQuotes(path) {
      QuotedIsNotRead(path);
    } else {
      var tail := path + if ' ' in path then "\t" else "";
      PlainIsRead(tail);
      assert Header("--- ", "a/", path) == "--- a/" + tail && Header("+++ ", "b/", path) == "+++ b/" + tail;
    }
  }

  lemma OtherLinesGiveNoName(path: string)
    ensures NameRead("diff --git " + path).None?
    ensures NameRead("index").None? && NameRead("deleted file mode").None? && NameRead("+++ /dev/null").None?
    ensures NameRead("old mode").None? && NameRead("new mode").None? && NameRead("Binary files differ").None?
  {
    assert ("diff --git " + path)[0] == 'd';
    assert "+++ /dev/null"[4] == '/' && "+++ b/"[4] == 'b';
  }

  /** The change has `p` read out of it: as its own name, or from a line of its body that looks like a header. */
  predicate Names(c: Change, p: string) {
    (HasHeaders(c) && HeaderRead(c.path) == Some(p)) || exists l :: l in Body(c) && NameRead(l) == Some(p)
  }

  /** The names one change gives. */
  lemma NamesOfChange(c: Change, p: string)
    ensures (exists l :: l in Shows(c) && NameRead(l) == Some(p)) <==> Names(c, p)
  {
    if l :| l in Shows(c) && NameRead(l) == Some(p) {
      LineOfChange(c, l);
    }
    HeadersRead(c.path);
    if HasHeaders(c) {
      assert Header("--- ", "a/", c.path) in Front(c);
      assert forall l :: l in Body(c) ==> l in Shows(c);
    }
  }

  lemma LineOfChange(c: Change, l: string)
    requires l in Shows(c) && NameRead(l).Some?
    ensures l in Body(c) || (HasHeaders(c) && NameRead(l) == HeaderRead(c.path))
  {
    if l in Front(c) {
      LineOfFront(c, l);
    }
  }

  lemma LineOfFront(c: Change, l: string)
    requires l in Front(c) && NameRead(l).Some?
    ensures HasHeaders(c) && NameRead(l) == HeaderRead(c.path)
  {
    var before, after := Header("--- ", "a/", c.path), Header("+++ ", "b/", c.path);
    HeadersRead(c.path);
    OtherLinesGiveNoName(c.path);
    assert HasHeaders(c) ==> l == before || l == after;
  }

  /** The captured files are exactly the names in the headers of text edits and deletions, as far as
      they are read, and whatever lines of a body look like a header. */
  lemma CapturedExactly(changes: seq<Change>, p: string)
    ensures p in FilesOf(DiffLines(changes)) <==> p != "/dev/null" && exists c :: c in changes && Names(c, p)
  {
    var lines := DiffLines(changes);
    FilesAreTheNamed(lines);
    if l :| l in lines && NameRead(l) == Some(p) {
      LinesOfChanges(changes, l);
      var c :| c in changes && l in Shows(c);
      NamesOfChange(c, p);
    }
    if c :| c in changes && Names(c, p) {
      NamesOfChange(c, p);
      var l :| l in Shows(c) && NameRead(l) == Some(p);
      LinesOfChanges(changes, l);
    }
  }

  lemma ShownIsCaptured(changes: seq<Change>, c: Change)
    requires c in changes && Shown(c)
    ensures c.path in FilesOf(DiffLines(changes))
  {
    CapturedExactly(changes, c.path);
  }

  /** A change nothing of which is captured: created, deleted when empty, of mode only, binary, or under
      a quoted name with no look-alike in its body. */
  predicate Silent(c: Change) {
    !HasHeaders(c) || (NeedsQuotes(c.path) && forall l :: l in Body(c) ==> NameRead(l).None?)
  }

  lemma SilentIsNotCaptured(c: Change)
    requires Silent(c)
    ensures FilesOf(DiffLines([c])) == [] && !Shown(c)
  {
    var files := FilesOf(DiffLines([c]));
    assert forall p :: !Names(c, p);
    forall p
      ensures p !in files
    {
      CapturedExactly([c], p);
    }
    SomeMember(files);
  }
}
