/** The text of a script that a move copies (backend/src/externalCollections/collectionStructure.ts). */
module CopiedScripts {
  import opened CollectionTree
  import opened JsonText
  import opened Sequences

  /** `source.split(/\r\n|\r|\n/)` */
  function Lines(s: string): (lines: seq<string>)
    ensures lines != []
  {
    if s == "" then [""]
    else if s[0] == '\r' && |s| > 1 && s[1] == '\n' then [""] + Lines(s[2..])
    else if s[0] == '\r' || s[0] == '\n' then [""] + Lines(s[1..])
    else var rest := Lines(s[1..]); [[s[0]] + rest[0]] + rest[1..]
  }

  const MARKER_START := "// Copied by ApiPilot from folder "

  const MARKER_END := ") when this item was moved."

  /** `copiedScriptMarker`: names the folder a copied script came from. */
  function Marker(folder: Member): string {
    Join(MarkerParts(folder), "")
  }

  function MarkerParts(folder: Member): seq<string> {
    [MARKER_START, Quote(folder.name), " (id: ", folder.id, MARKER_END]
  }

  /** The marker gives the folder's quoted name and its id. */
  lemma MarkerReads(folder: Member)
    ensures Marker(folder)
         == "// Copied by ApiPilot from folder " + (Quote(folder.name) + (" (id: " + (folder.id + ") when this item was moved.")))
  {
    JoinFirst(folder.id, [MARKER_END]);
    JoinFirst(" (id: ", [folder.id, MARKER_END]);
    JoinFirst(Quote(folder.name), [" (id: ", folder.id, MARKER_END]);
    JoinFirst(MARKER_START, [Quote(folder.name), " (id: ", folder.id, MARKER_END]);
  }

  lemma JoinFirst(part: string, rest: seq<string>)
    requires rest != []
    ensures Join([part] + rest, "") == part + Join(rest, "")
  {
    assert ([part] + rest)[1..] == rest && part + "" == part;
  }

  /** The source of the copy: the marker, then the script's own lines. */
  function CopyText(folder: Member, source: string): string {
    Join([Marker(folder)] + Lines(source), "\n")
  }

  function CopyFor(folder: Member): string -> string {
    (source: string) => CopyText(folder, source)
  }

  // ---- What a copy runs ----

  /** What runs of a text that begins with a `//` comment: all that follows the first line end. */
  function AfterComment(text: string): string {
    if text == "" then ""
    else if EndsLine(text[0]) then text[1..]
    else AfterComment(text[1..])
  }

  /** The same script with every CR LF and every CR written as LF, as JavaScript itself reads them. */
  function LineFeeds(s: string): string {
    if s == "" then ""
    else if s[0] == '\r' && |s| > 1 && s[1] == '\n' then "\n" + LineFeeds(s[2..])
    else if s[0] == '\r' then "\n" + LineFeeds(s[1..])
    else [s[0]] + LineFeeds(s[1..])
  }

  lemma JoinStartsLonger(c: char, line: string, rest: seq<string>)
    ensures Join([[c] + line] + rest, "\n") == [c] + Join([line] + rest, "\n")
  {
    assert ([[c] + line] + rest)[1..] == rest == ([line] + rest)[1..];
    if rest != [] { assert [c] + line + "\n" + Join(rest, "\n") == [c] + (line + "\n" + Join(rest, "\n")); }
  }

  lemma JoinStartsEmpty(rest: seq<string>)
    requires rest != []
    ensures Join([""] + rest, "\n") == "\n" + Join(rest, "\n")
  {
    assert ([""] + rest)[1..] == rest;
    assert "" + "\n" + Join(rest, "\n") == "\n" + Join(rest, "\n");
  }

  /** Splitting a script into lines and joining them changes only how its line breaks are written. */
  lemma {:induction false} LinesRejoin(s: string)
    ensures Join(Lines(s), "\n") == LineFeeds(s)
  {
    if s == "" {
    } else if s[0] == '\r' && |s| > 1 && s[1] == '\n' {
      LinesRejoin(s[2..]);
      JoinStartsEmpty(Lines(s[2..]));
    } else if s[0] == '\r' || s[0] == '\n' {
      LinesRejoin(s[1..]);
      JoinStartsEmpty(Lines(s[1..]));
    } else {
      LinesRejoin(s[1..]);
      var rest := Lines(s[1..]);
      JoinStartsLonger(s[0], rest[0], rest[1..]);
      assert [rest[0]] + rest[1..] == rest;
    }
  }

  /** No line holds a line break. */
  lemma {:induction false} LinesHoldNoBreak(s: string)
    ensures forall line :: line in Lines(s) ==> '\r' !in line && '\n' !in line
  {
    if s == "" {
    } else if s[0] == '\r' && |s| > 1 && s[1] == '\n' {
      LinesHoldNoBreak(s[2..]);
    } else {
      LinesHoldNoBreak(s[1..]);
    }
  }

  lemma CopyIsMarkerThenScript(folder: Member, source: string)
    ensures CopyText(folder, source) == Marker(folder) + "\n" + LineFeeds(source)
  {
    LinesRejoin(source);
    assert ([Marker(folder)] + Lines(source))[1..] == Lines(source);
  }

  /** Exactly a one-line comment ends where it was meant to. */
  lemma {:induction false} CommentEnds(comment: string, rest: string)
    ensures OneLine(comment) ==> AfterComment(comment + "\n" + rest) == rest
    ensures !OneLine(comment) ==> |AfterComment(comment + "\n" + rest)| > |rest|
  {
    var text := comment + "\n" + rest;
    if comment == "" {
      assert text[1..] == rest;
    } else {
      assert comment[0] in comment && comment == [comment[0]] + comment[1..];
      assert text[1..] == comment[1..] + "\n" + rest;
      if !EndsLine(comment[0]) {
        CommentEnds(comment[1..], rest);
        OneLineConcat([comment[0]], comment[1..]);
      }
    }
  }

  lemma {:induction false} JoinIsOneLine(parts: seq<string>)
    ensures OneLine(Join(parts, "")) <==> forall part :: part in parts ==> OneLine(part)
  {
    if parts == [] {
    } else {
      assert parts == [parts[0]] + parts[1..];
      if |parts| > 1 {
        JoinIsOneLine(parts[1..]);
        OneLineConcat(parts[0], "");
        OneLineConcat(parts[0] + "", Join(parts[1..], ""));
      }
    }
  }

  /** The marker is one line exactly when the name holds no separator and the id, which is not quoted, no line end at all. */
  predicate CleanFolder(folder: Member) {
    NoSeparator(folder.name) && OneLine(folder.id)
  }

  lemma MarkerStartIsOneLine()
    ensures OneLine(MARKER_START)
  {
    PrintableIsOneLine(MARKER_START);
  }

  lemma MarkerEndIsOneLine()
    ensures OneLine(MARKER_END)
  {
    PrintableIsOneLine(MARKER_END);
  }

  lemma MarkerIsOneLine(folder: Member)
    ensures OneLine(Marker(folder)) <==> CleanFolder(folder)
  {
    var parts := MarkerParts(folder);
    JoinIsOneLine(parts);
    QuoteIsOneLine(folder.name);
    MarkerStartIsOneLine();
    MarkerEndIsOneLine();
    assert OneLine(parts[2]);
    assert parts[1] in parts && parts[3] in parts;
    forall part | part in parts ensures CleanFolder(folder) ==> OneLine(part) {
      var i :| 0 <= i < |parts| && parts[i] == part;
    }
  }

  predicate RunsTheSame(copy: string, source: string) {
    AfterComment(copy) == LineFeeds(source)
  }

  /** What runs of a copy is exactly the script it copies, if and only if the folder's name and id are clean. */
  lemma CopyRunsTheSame(folder: Member, source: string)
    ensures RunsTheSame(CopyText(folder, source), source) <==> CleanFolder(folder)
  {
    CopyIsMarkerThenScript(folder, source);
    MarkerIsOneLine(folder);
    CommentEnds(Marker(folder), LineFeeds(source));
  }

  /** A folder name with a line separator, which quoting leaves as it is: the rest of the marker becomes code. */
  lemma SeparatorInNameBreaksCopy()
    ensures var folder := Folder("7", "Orders\U{2028}2024", None, [], []);
            !RunsTheSame(CopyText(folder, "send();"), "send();")
  {
    var folder := Folder("7", "Orders\U{2028}2024", None, [], []);
    assert folder.name[6] == '\U{2028}';
    CopyRunsTheSame(folder, "send();");
  }

  /** A folder id with a line feed, which nothing quotes. */
  lemma LineFeedInIdBreaksCopy()
    ensures var folder := Folder("7\n8", "Orders", None, [], []);
            !RunsTheSame(CopyText(folder, "send();"), "send();")
  {
    var folder := Folder("7\n8", "Orders", None, [], []);
    assert folder.id[1] == '\n';
    CopyRunsTheSame(folder, "send();");
  }

  /** A copy is never blank, so it runs wherever it lands. */
  lemma CopyIsNotBlank(folder: Member, source: string)
    ensures !IsBlank(CopyText(folder, source))
  {
    var lines := [Marker(folder)] + Lines(source);
    assert Join(lines, "\n") == lines[0] + "\n" + Join(lines[1..], "\n");
    assert Marker(folder)[0] == '/';
    assert CopyText(folder, source)[0] == '/';
  }
}
