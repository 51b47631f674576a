/**
 * The hand-written scanners over JSON text: `scanJsonDepth` (backend/src/apiInput/jsonSafe.ts) and
 * `balancedObjectAt` / `extractJsonObjects` (backend/src/ai/jsonResponseParsing.ts), against the
 * grammar of RFC 8259.
 */
module JsonScan {
  import opened Sequences

  // ---- The scanner state ----

  /** `deepest` and `shallowest` remember the depths reached by openings and by closings. */
  datatype Scan = Scan(depth: int, deepest: int, shallowest: int, inString: bool, escaped: bool) {
    predicate Outside() {
      !inString && !escaped
    }
  }

  function Max(a: int, b: int): int {
    if a < b then b else a
  }

  function Min(a: int, b: int): int {
    if a < b then a else b
  }

  /** `scanJsonDepth` counts braces and brackets, `balancedObjectAt` counts braces only. */
  predicate Opens(c: char, brackets: bool) {
    c == '{' || (brackets && c == '[')
  }

  predicate Closes(c: char, brackets: bool) {
    c == '}' || (brackets && c == ']')
  }

  function Step(sc: Scan, c: char, brackets: bool): Scan {
    if sc.inString then
      if sc.escaped then sc.(escaped := false)
      else if c == '\\' then sc.(escaped := true)
      else if c == '\"' then sc.(inString := false)
      else sc
    else if c == '\"' then sc.(inString := true)
    else if Opens(c, brackets) then sc.(depth := sc.depth + 1, deepest := Max(sc.deepest, sc.depth + 1))
    else if Closes(c, brackets) then sc.(depth := sc.depth - 1, shallowest := Min(sc.shallowest, sc.depth - 1))
    else sc
  }

  function Run(sc: Scan, text: string, brackets: bool): Scan
    decreases text
  {
    if text == "" then sc else Run(Step(sc, text[0], brackets), text[1..], brackets)
  }

  /** The state both scanners start in. */
  const START := Scan(0, 0, 1, false, false)

  lemma {:induction false} RunAppend(sc: Scan, a: string, b: string, brackets: bool)
    ensures Run(sc, a + b, brackets) == Run(Run(sc, a, brackets), b, brackets)
    decreases a
  {
    if a == "" {
      assert a + b == b;
    } else {
      assert (a + b)[1..] == a[1..] + b;
      RunAppend(Step(sc, a[0], brackets), a[1..], b, brackets);
    }
  }

  lemma RunPush(sc: Scan, text: string, i: nat, brackets: bool)
    requires i < |text|
    ensures Run(sc, text[..i + 1], brackets) == Step(Run(sc, text[..i], brackets), text[i], brackets)
  {
    assert text[..i + 1] == text[..i] + [text[i]];
    RunAppend(sc, text[..i], [text[i]], brackets);
    assert [text[i]][1..] == "";
  }

  /** The records only ever widen. */
  lemma {:induction false} RunWidens(sc: Scan, text: string, brackets: bool)
    ensures Run(sc, text, brackets).deepest >= sc.deepest
    ensures Run(sc, text, brackets).shallowest <= sc.shallowest
    decreases text
  {
    if text != "" { RunWidens(Step(sc, text[0], brackets), text[1..], brackets); }
  }

  // ---- scanJsonDepth ----

  /** The character at `k` opens a container outside any string, and thereby passes `max`. */
  ghost predicate OpensPast(text: string, max: int, k: nat) {
    && k < |text|
    && var before := Run(START, text[..k], true);
    && !before.inString && Opens(text[k], true) && before.depth + 1 > max
  }

  /** Without an opening past `max`, no depth past `max` is reached; with one, the record shows it. */
  lemma {:induction false} DeepestTellsOpenings(text: string, max: nat)
    ensures Run(START, text, true).deepest > max <==> exists k :: OpensPast(text, max, k)
  {
    if text != "" {
      var init, i := text[..|text| - 1], |text| - 1;
      DeepestTellsOpenings(init, max);
      RunPush(START, text, i, true);
      assert text[..i + 1] == text;
      if k: nat :| OpensPast(init, max, k) {
        assert text[..k] == init[..k];
        assert OpensPast(text, max, k);
      }
      if k: nat :| OpensPast(text, max, k) {
        if k < i {
          assert text[..k] == init[..k];
          assert OpensPast(init, max, k);
        }
      }
      if Run(START, init, true).deepest <= max && Run(START, text, true).deepest > max {
        assert OpensPast(text, max, i);
      }
    }
  }

  /** Stops at the first opening that passes `max`. */
  method ScanJsonDepth(text: string, max: int) returns (depth: int, exceeded: bool)
    ensures exceeded <==> exists k :: OpensPast(text, max, k)
    ensures !exceeded ==> depth == Run(START, text, true).deepest
    ensures exceeded ==> depth > max && (max >= 0 ==> depth == max + 1)
    ensures forall d: Document :: Prints(d, text) && max >= 0 ==>
              (exceeded <==> Nesting(d.value, true) > max) && depth == (if exceeded then max + 1 else Nesting(d.value, true))
  {
    depth := 0;
    var deepest, inString, escaped, i := 0, false, false, 0;
    while i < |text|
      invariant 0 <= i <= |text|
      invariant var sc := Run(START, text[..i], true);
                sc == Scan(depth, deepest, sc.shallowest, inString, escaped)
      invariant depth <= deepest && (max >= 0 ==> deepest <= max)
      invariant forall k :: 0 <= k < i ==> !OpensPast(text, max, k)
    {
      var c := text[i];
      RunPush(START, text, i, true);
      if inString {
        if escaped {
          escaped := false;
        } else if c == '\\' {
          escaped := true;
        } else if c == '\"' {
          inString := false;
        }
      } else if c == '\"' {
        inString := true;
      } else if c == '{' || c == '[' {
        depth := depth + 1;
        if depth > deepest {
          deepest := depth;
        }
        if depth > max {
          assert OpensPast(text, max, i);
          forall d: Document | Prints(d, text) && max >= 0 ensures Nesting(d.value, true) > max {
            DocumentDepth(d);
            DeepestTellsOpenings(text, max);
          }
          return depth, true;
        }
      } else if c == '}' || c == ']' {
        depth := depth - 1;
      }
      i := i + 1;
    }
    assert text[..|text|] == text;
    forall d: Document | Prints(d, text) ensures deepest == Nesting(d.value, true) {
      DocumentDepth(d);
    }
    return deepest, false;
  }

  // ---- balancedObjectAt ----

  /** Where the scan first sees a closing brace bring the depth to zero, or the end of the text. */
  function CloseFrom(content: string, i: nat, sc: Scan): (k: nat)
    requires i <= |content|
    ensures i <= k <= |content|
    decreases |content| - i
  {
    if i == |content| then i
    else if !sc.inString && content[i] == '}' && sc.depth == 1 then i
    else CloseFrom(content, i + 1, Step(sc, content[i], false))
  }

  function Balanced(content: string, start: nat): Option<string>
    requires start <= |content|
  {
    var k := CloseFrom(content, start, START);
    if k < |content| then Some(content[start..k + 1]) else None
  }

  method BalancedObjectAt(content: string, start: nat) returns (found: Option<string>)
    requires start <= |content|
    ensures found == Balanced(content, start)
    ensures forall v: Value :: StartsWithObject(v, content, start) ==> found == Some(Print(v))
  {
    forall v: Value | StartsWithObject(v, content, start) ensures Balanced(content, start) == Some(Print(v)) {
      EmbeddedObjectIsFound(v, content, start);
    }
    var depth, inString, escaped, index := 0, false, false, start;
    ghost var sc := START;
    while index < |content|
      invariant start <= index <= |content|
      invariant sc.depth == depth && sc.inString == inString && sc.escaped == escaped
      invariant CloseFrom(content, start, START) == CloseFrom(content, index, sc)
    {
      var c := content[index];
      sc := Step(sc, c, false);
      if inString {
        if escaped {
          escaped := false;
        } else if c == '\\' {
          escaped := true;
        } else if c == '\"' {
          inString := false;
        }
      } else if c == '\"' {
        inString := true;
      } else if c == '{' {
        depth := depth + 1;
      } else if c == '}' {
        depth := depth - 1;
        if depth == 0 {
          return Some(content[start..index + 1]);
        }
      }
      index := index + 1;
    }
    return None;
  }

  /** A run over `text` that no closing brace takes down to zero is passed over. */
  lemma {:induction false} CloseSkips(content: string, i: nat, j: nat, sc: Scan)
    requires i <= j <= |content|
    requires sc.shallowest >= 1 && Run(sc, content[i..j], false).shallowest >= 1
    ensures CloseFrom(content, i, sc) == CloseFrom(content, j, Run(sc, content[i..j], false))
    decreases j - i
  {
    if i < j {
      var text := content[i..j];
      assert text[1..] == content[i + 1..j];
      RunWidens(Step(sc, text[0], false), text[1..], false);
      CloseSkips(content, i + 1, j, Step(sc, content[i], false));
    }
  }

  // ---- extractJsonObjects ----

  /** What is extracted from position `from` on: a balanced object for every opening brace that has one. */
  function Extracted(content: string, from: nat): seq<string>
    requires from <= |content|
    decreases |content| - from
  {
    if from == |content| then []
    else (if content[from] == '{' && Balanced(content, from).Some? then [Balanced(content, from).value] else [])
         + Extracted(content, from + 1)
  }

  /** `content.indexOf("{", from)`, with the length of the text for "none". */
  method IndexOfBrace(content: string, from: nat) returns (k: nat)
    requires from <= |content|
    ensures from <= k <= |content| && (k < |content| ==> content[k] == '{')
    ensures Extracted(content, from) == Extracted(content, k)
    ensures forall j :: from <= j < k ==> content[j] != '{'
  {
    k := from;
    while k < |content| && content[k] != '{'
      invariant from <= k <= |content|
      invariant Extracted(content, from) == Extracted(content, k)
      invariant forall j :: from <= j < k ==> content[j] != '{'
    {
      k := k + 1;
    }
  }

  lemma ExtractedHere(content: string, start: nat, done: seq<string>, all: seq<string>)
    requires start < |content| && content[start] == '{' && done + Extracted(content, start) == all
    ensures var found := Balanced(content, start);
            (if found.Some? then done + [found.value] else done) + Extracted(content, start + 1) == all
  {
    var found := Balanced(content, start);
    var rest := Extracted(content, start + 1);
    assert Extracted(content, start) == (if found.Some? then [found.value] else []) + rest;
  }

  method ExtractJsonObjects(content: string) returns (objects: seq<string>)
    ensures objects == Extracted(content, 0)
  {
    objects := [];
    var start := IndexOfBrace(content, 0);
    while start < |content|
      invariant start <= |content| && (start < |content| ==> content[start] == '{')
      invariant objects + Extracted(content, start) == Extracted(content, 0)
      decreases |content| - start
    {
      ExtractedHere(content, start, objects, Extracted(content, 0));
      var found := BalancedObjectAt(content, start);
      if found.Some? {
        objects := objects + [found.value];
      }
      start := IndexOfBrace(content, start + 1);
    }
  }

  lemma {:induction false} ExtractedFrom(content: string, from: nat)
    requires from <= |content|
    ensures forall p :: from <= p < |content| && content[p] == '{' && Balanced(content, p).Some?
              ==> Balanced(content, p).value in Extracted(content, from)
    ensures forall s :: s in Extracted(content, from) ==>
              exists p :: from <= p < |content| && content[p] == '{' && Balanced(content, p) == Some(s)
    decreases |content| - from
  {
    if from < |content| { ExtractedFrom(content, from + 1); }
  }

  lemma {:induction false} NoBraceNothingExtracted(content: string, from: nat, p: nat)
    requires from <= p <= |content| && forall j :: from <= j < p ==> content[j] != '{'
    ensures Extracted(content, from) == Extracted(content, p)
    decreases p - from
  {
    if from < p { NoBraceNothingExtracted(content, from + 1, p); }
  }

  /** An object in surrounding prose is extracted, and comes first when no brace precedes it. */
  lemma EmbeddedObjectIsExtracted(v: Value, content: string, p: nat)
    requires p <= |content| && StartsWithObject(v, content, p)
    ensures Print(v) in Extracted(content, 0)
    ensures '{' !in content[..p] ==> Extracted(content, 0)[0] == Print(v)
  {
    EmbeddedObjectIsFound(v, content, p);
    assert content[p..][0] == '{' == content[p];
    ExtractedFrom(content, 0);
    if '{' !in content[..p] {
      forall j | 0 <= j < p ensures content[j] != '{' { assert content[..p][j] == content[j]; }
      NoBraceNothingExtracted(content, 0, p);
    }
  }

  // ---- The grammar of RFC 8259, sections 2 to 7 ----

  datatype Piece = Plain(c: char) | Escape(c: char) | UnicodeEscape(digits: string)

  /** A value with the white space around it. */
  datatype Document = Document(before: string, value: Value, after: string)

  /** `blank` is the white space inside an empty container. */
  datatype Value =
    | Scalar(token: string)
    | Text(pieces: seq<Piece>)
    | Array(elements: seq<Document>, blank: string)
    | Object(members: seq<Entry>, blank: string)

  datatype Entry = Entry(before: string, key: seq<Piece>, beforeColon: string, value: Document)

  function PrintPiece(p: Piece): string {
    match p
    case Plain(c) => [c]
    case Escape(c) => ['\\', c]
    case UnicodeEscape(digits) => "\\u" + digits
  }

  function PrintPieces(pieces: seq<Piece>): string {
    if pieces == [] then "" else PrintPiece(pieces[0]) + PrintPieces(pieces[1..])
  }

  function Quoted(pieces: seq<Piece>): string {
    "\"" + (PrintPieces(pieces) + "\"")
  }

  function Print(v: Value): string {
    match v
    case Scalar(token) => token
    case Text(pieces) => Quoted(pieces)
    case Array(elements, blank) => "[" + (if elements == [] then blank else PrintElements(elements)) + "]"
    case Object(members, blank) => "{" + (if members == [] then blank else PrintMembers(members)) + "}"
  }

  function PrintDocument(d: Document): string {
    d.before + (Print(d.value) + d.after)
  }

  function PrintElements(elements: seq<Document>): string
    requires elements != []
  {
    if |elements| == 1 then PrintDocument(elements[0])
    else PrintDocument(elements[0]) + ("," + PrintElements(elements[1..]))
  }

  function PrintEntry(e: Entry): string {
    e.before + (Quoted(e.key) + (e.beforeColon + (":" + PrintDocument(e.value))))
  }

  function PrintMembers(members: seq<Entry>): string
    requires members != []
  {
    if |members| == 1 then PrintEntry(members[0])
    else PrintEntry(members[0]) + ("," + PrintMembers(members[1..]))
  }

  predicate IsWhiteSpace(s: string) {
    forall i :: 0 <= i < |s| ==> s[i] == ' ' || s[i] == '\t' || s[i] == '\n' || s[i] == '\r'
  }

  predicate IsHexDigit(c: char) {
    '0' <= c <= '9' || 'a' <= c <= 'f' || 'A' <= c <= 'F'
  }

  /** Covers every number of section 6, and `true`, `false` and `null`. */
  predicate IsToken(s: string) {
    s != "" && forall i :: 0 <= i < |s| ==> '0' <= s[i] <= '9' || 'a' <= s[i] <= 'z' || s[i] in "+-.E"
  }

  predicate GrammaticalPiece(p: Piece) {
    match p
    case Plain(c) => c >= ' ' && c != '\"' && c != '\\'
    case Escape(c) => c in "\"\\/bfnrt"
    case UnicodeEscape(digits) => |digits| == 4 && forall i :: 0 <= i < 4 ==> IsHexDigit(digits[i])
  }

  predicate GrammaticalPieces(pieces: seq<Piece>) {
    forall i :: 0 <= i < |pieces| ==> GrammaticalPiece(pieces[i])
  }

  predicate Grammatical(v: Value) {
    match v
    case Scalar(token) => IsToken(token)
    case Text(pieces) => GrammaticalPieces(pieces)
    case Array(elements, blank) =>
      IsWhiteSpace(blank) && forall i :: 0 <= i < |elements| ==> GrammaticalDocument(elements[i])
    case Object(members, blank) =>
      IsWhiteSpace(blank) && forall i :: 0 <= i < |members| ==> GrammaticalEntry(members[i])
  }

  predicate GrammaticalDocument(d: Document) {
    IsWhiteSpace(d.before) && Grammatical(d.value) && IsWhiteSpace(d.after)
  }

  predicate GrammaticalEntry(e: Entry) {
    IsWhiteSpace(e.before) && GrammaticalPieces(e.key) && IsWhiteSpace(e.beforeColon) && GrammaticalDocument(e.value)
  }

  /** How deep containers nest; without `brackets`, only objects count. */
  function Nesting(v: Value, brackets: bool): nat {
    match v
    case Scalar(_) => 0
    case Text(_) => 0
    case Array(elements, _) => (if brackets then 1 else 0) + DeepestElement(elements, brackets)
    case Object(members, _) => 1 + DeepestMember(members, brackets)
  }

  function DeepestElement(elements: seq<Document>, brackets: bool): nat {
    if elements == [] then 0 else Max(Nesting(elements[0].value, brackets), DeepestElement(elements[1..], brackets))
  }

  function DeepestMember(members: seq<Entry>, brackets: bool): nat {
    if members == [] then 0 else Max(Nesting(members[0].value.value, brackets), DeepestMember(members[1..], brackets))
  }

  ghost predicate Prints(d: Document, text: string) {
    GrammaticalDocument(d) && text == PrintDocument(d)
  }

  ghost predicate StartsWithObject(v: Value, content: string, start: nat)
    requires start <= |content|
  {
    v.Object? && Grammatical(v) && Print(v) <= content[start..]
  }

  // ---- The scanners agree with the grammar ----

  predicate NeutralCharacter(c: char) {
    c != '\"' && c != '{' && c != '}' && c != '[' && c != ']'
  }

  lemma {:induction false} RunNeutral(sc: Scan, text: string, brackets: bool)
    requires sc.Outside() && forall i :: 0 <= i < |text| ==> NeutralCharacter(text[i])
    ensures Run(sc, text, brackets) == sc
  {
    if text != "" { RunNeutral(sc, text[1..], brackets); }
  }

  /** Inside a string literal every piece is passed over, whatever it encodes. */
  lemma RunPiece(sc: Scan, p: Piece, brackets: bool)
    requires sc.inString && !sc.escaped && GrammaticalPiece(p)
    ensures Run(sc, PrintPiece(p), brackets) == sc
  {
    match p
    case Plain(c) =>
      assert [c][1..] == "";
    case Escape(c) =>
      assert ['\\', c][1..] == [c];
      RunOne(sc.(escaped := true), c, brackets);
    case UnicodeEscape(digits) =>
      var text := "\\u" + digits;
      assert text[1..] == "u" + digits;
      assert text[1..][1..] == digits;
      assert Run(sc, text, brackets) == Run(sc, digits, brackets);
      RunDigits(sc, digits, brackets);
  }

  lemma {:induction false} RunDigits(sc: Scan, digits: string, brackets: bool)
    requires sc.inString && !sc.escaped && forall i :: 0 <= i < |digits| ==> IsHexDigit(digits[i])
    ensures Run(sc, digits, brackets) == sc
  {
    if digits != "" { RunDigits(sc, digits[1..], brackets); }
  }

  lemma {:induction false} RunPieces(sc: Scan, pieces: seq<Piece>, brackets: bool)
    requires sc.inString && !sc.escaped && GrammaticalPieces(pieces)
    ensures Run(sc, PrintPieces(pieces), brackets) == sc
  {
    if pieces != [] {
      RunPiece(sc, pieces[0], brackets);
      RunPieces(sc, pieces[1..], brackets);
      RunAppend(sc, PrintPiece(pieces[0]), PrintPieces(pieces[1..]), brackets);
    }
  }

  lemma RunOne(sc: Scan, c: char, brackets: bool)
    ensures Run(sc, [c], brackets) == Step(sc, c, brackets)
  {
    assert [c][1..] == "";
  }

  lemma RunQuoted(sc: Scan, pieces: seq<Piece>, brackets: bool)
    requires sc.Outside() && GrammaticalPieces(pieces)
    ensures Run(sc, Quoted(pieces), brackets) == sc
  {
    var inside := sc.(inString := true);
    RunOne(sc, '\"', brackets);
    RunAppend(sc, "\"", PrintPieces(pieces) + "\"", brackets);
    RunPieces(inside, pieces, brackets);
    RunAppend(inside, PrintPieces(pieces), "\"", brackets);
    RunOne(inside, '\"', brackets);
  }

  /** The state after a value that nests `n` containers. */
  function Passed(sc: Scan, n: nat): Scan {
    if n == 0 then sc
    else sc.(deepest := Max(sc.deepest, sc.depth + n), shallowest := Min(sc.shallowest, sc.depth))
  }

  /** A scanner passes over any grammatical value, ends at the depth it began at, and records exactly the value's nesting. */
  lemma {:induction false} RunPrint(sc: Scan, v: Value, brackets: bool)
    requires sc.Outside() && Grammatical(v)
    ensures Run(sc, Print(v), brackets) == Passed(sc, Nesting(v, brackets))
    decreases v, 1
  {
    match v
    case Scalar(token) =>
      RunNeutral(sc, token, brackets);
    case Text(pieces) =>
      RunQuoted(sc, pieces, brackets);
    case Array(elements, blank) =>
      RunArray(sc, v, brackets);
    case Object(members, blank) =>
      RunObject(sc, v, brackets);
  }

  lemma {:induction false} RunArray(sc: Scan, v: Value, brackets: bool)
    requires v.Array? && sc.Outside() && Grammatical(v)
    ensures Run(sc, Print(v), brackets) == Passed(sc, Nesting(v, brackets))
    decreases v, 0
  {
    var inner := Step(sc, '[', brackets);
    var body := if v.elements == [] then v.blank else PrintElements(v.elements);
    if v.elements == [] { RunNeutral(inner, body, brackets); } else { RunElements(inner, v.elements, brackets); }
    RunEnclosed(sc, '[', body, ']', brackets);
  }

  lemma {:induction false} RunObject(sc: Scan, v: Value, brackets: bool)
    requires v.Object? && sc.Outside() && Grammatical(v)
    ensures Run(sc, Print(v), brackets) == Passed(sc, Nesting(v, brackets))
    decreases v, 0
  {
    var inner := Step(sc, '{', brackets);
    var body := if v.members == [] then v.blank else PrintMembers(v.members);
    if v.members == [] { RunNeutral(inner, body, brackets); } else { RunMembers(inner, v.members, brackets); }
    RunEnclosed(sc, '{', body, '}', brackets);
  }

  lemma RunEnclosed(sc: Scan, open: char, body: string, close: char, brackets: bool)
    ensures Run(sc, [open] + body + [close], brackets) == Step(Run(Step(sc, open, brackets), body, brackets), close, brackets)
  {
    RunOne(sc, open, brackets);
    RunAppend(sc, [open], body, brackets);
    RunAppend(sc, [open] + body, [close], brackets);
    RunOne(Run(sc, [open] + body, brackets), close, brackets);
  }

  lemma {:induction false} RunDocument(sc: Scan, d: Document, brackets: bool)
    requires sc.Outside() && GrammaticalDocument(d)
    ensures Run(sc, PrintDocument(d), brackets) == Passed(sc, Nesting(d.value, brackets))
    decreases d
  {
    var after := Passed(sc, Nesting(d.value, brackets));
    RunNeutral(sc, d.before, brackets);
    RunPrint(sc, d.value, brackets);
    RunNeutral(after, d.after, brackets);
    RunAppend(sc, d.before, Print(d.value) + d.after, brackets);
    RunAppend(sc, Print(d.value), d.after, brackets);
  }

  lemma {:induction false} RunElements(sc: Scan, elements: seq<Document>, brackets: bool)
    requires sc.Outside() && elements != [] && forall i :: 0 <= i < |elements| ==> GrammaticalDocument(elements[i])
    ensures Run(sc, PrintElements(elements), brackets) == Passed(sc, DeepestElement(elements, brackets))
    decreases elements
  {
    RunDocument(sc, elements[0], brackets);
    if |elements| > 1 {
      var after := Passed(sc, Nesting(elements[0].value, brackets));
      RunAppend(sc, PrintDocument(elements[0]), "," + PrintElements(elements[1..]), brackets);
      RunNeutral(after, ",", brackets);
      RunAppend(after, ",", PrintElements(elements[1..]), brackets);
      RunElements(after, elements[1..], brackets);
    }
  }

  lemma {:induction false} RunEntry(sc: Scan, e: Entry, brackets: bool)
    requires sc.Outside() && GrammaticalEntry(e)
    ensures Run(sc, PrintEntry(e), brackets) == Passed(sc, Nesting(e.value.value, brackets))
    decreases e
  {
    var value := PrintDocument(e.value);
    RunNeutral(sc, e.before, brackets);
    RunAppend(sc, e.before, Quoted(e.key) + (e.beforeColon + (":" + value)), brackets);
    RunQuoted(sc, e.key, brackets);
    RunAppend(sc, Quoted(e.key), e.beforeColon + (":" + value), brackets);
    RunNeutral(sc, e.beforeColon, brackets);
    RunAppend(sc, e.beforeColon, ":" + value, brackets);
    RunNeutral(sc, ":", brackets);
    RunAppend(sc, ":", value, brackets);
    RunDocument(sc, e.value, brackets);
  }

  lemma {:induction false} RunMembers(sc: Scan, members: seq<Entry>, brackets: bool)
    requires sc.Outside() && members != [] && forall i :: 0 <= i < |members| ==> GrammaticalEntry(members[i])
    ensures Run(sc, PrintMembers(members), brackets) == Passed(sc, DeepestMember(members, brackets))
    decreases members
  {
    RunEntry(sc, members[0], brackets);
    if |members| > 1 {
      var after := Passed(sc, Nesting(members[0].value.value, brackets));
      RunAppend(sc, PrintEntry(members[0]), "," + PrintMembers(members[1..]), brackets);
      RunNeutral(after, ",", brackets);
      RunAppend(after, ",", PrintMembers(members[1..]), brackets);
      RunMembers(after, members[1..], brackets);
    }
  }

  /** The depth recorded over a whole document is its nesting. */
  lemma DocumentDepth(d: Document)
    requires GrammaticalDocument(d)
    ensures Run(START, PrintDocument(d), true).deepest == Nesting(d.value, true)
  {
    RunDocument(START, d, true);
  }

  /** Where the parts of an enclosed text lie in the text around it. */
  lemma EnclosedAt(content: string, start: nat, open: char, body: string, close: char)
    requires start <= |content| && [open] + body + [close] <= content[start..]
    ensures var last := start + 1 + |body|;
            && last < |content| && content[start] == open && content[last] == close
            && content[start + 1..last] == body && content[start..last + 1] == [open] + body + [close]
  {
    var text, rest := [open] + body + [close], content[start..];
    assert rest[..|text|] == text;
    assert rest[0] == text[0] && rest[|text| - 1] == text[|text| - 1];
    assert text[1..|text| - 1] == body;
    assert content[start..start + |text|] == text;
    assert content[start + 1..start + 1 + |body|] == text[1..|text| - 1];
  }

  lemma RunBody(v: Value)
    requires v.Object? && Grammatical(v)
    ensures var inner := Step(START, '{', false);
            var body := if v.members == [] then v.blank else PrintMembers(v.members);
            && Run(inner, body, false).shallowest >= 1 && Run(inner, body, false).depth == 1
            && !Run(inner, body, false).inString && Print(v) == ['{'] + body + ['}']
  {
    var inner := Step(START, '{', false);
    if v.members == [] { RunNeutral(inner, v.blank, false); } else { RunMembers(inner, v.members, false); }
  }

  /** A body that comes back to depth one, between braces, is balanced. */
  lemma BalancedBody(content: string, start: nat, last: nat, body: string, inner: Scan)
    requires start < last < |content| && content[start] == '{' && content[last] == '}'
    requires inner == Step(START, '{', false) && content[start + 1..last] == body
    requires Run(inner, body, false).shallowest >= 1 && Run(inner, body, false).depth == 1
    requires !Run(inner, body, false).inString
    ensures Balanced(content, start) == Some(content[start..last + 1])
  {
    CloseSkips(content, start + 1, last, inner);
  }

  lemma BracedIsFound(content: string, start: nat, body: string)
    requires start <= |content| && ['{'] + body + ['}'] <= content[start..]
    requires var sc := Run(Step(START, '{', false), body, false);
             sc.shallowest >= 1 && sc.depth == 1 && !sc.inString
    ensures Balanced(content, start) == Some(['{'] + body + ['}'])
  {
    EnclosedAt(content, start, '{', body, '}');
    BalancedBody(content, start, start + 1 + |body|, body, Step(START, '{', false));
  }

  /** In any text, the balanced object starting where a grammatical object starts is exactly that object. */
  lemma EmbeddedObjectIsFound(v: Value, content: string, start: nat)
    requires start <= |content| && StartsWithObject(v, content, start)
    ensures Balanced(content, start) == Some(Print(v))
  {
    RunBody(v);
    BracedIsFound(content, start, if v.members == [] then v.blank else PrintMembers(v.members));
  }
}
