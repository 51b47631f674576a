/** The canonical text is JSON: every serialized value is a text of the grammar the scanners are proved against. */
module JsonGrammar {
  import opened Sequences
  import opened Ordering
  import opened JsonText
  import opened JsonScan
  import opened StableJson

  ghost predicate IsText(text: string) {
    exists v: Value :: Grammatical(v) && Print(v) == text
  }

  // ---- Strings ----

  ghost function PieceOf(c: char): Piece {
    if c == '\"' || c == '\\' then Escape(c)
    else if c == '\U{8}' then Escape('b')
    else if c == '\t' then Escape('t')
    else if c == '\n' then Escape('n')
    else if c == '\U{C}' then Escape('f')
    else if c == '\r' then Escape('r')
    else if c < ' ' then UnicodeEscape("00" + [HEX[c as int / 16], HEX[c as int % 16]])
    else Plain(c)
  }

  lemma PieceIsGrammatical(c: char)
    ensures GrammaticalPiece(PieceOf(c)) && PrintPiece(PieceOf(c)) == EscapeChar(c)
  {
    if c < ' ' { assert "\\u00" == "\\u" + "00"; }
  }

  ghost function PiecesOf(s: string): seq<Piece> {
    if s == "" then [] else [PieceOf(s[0])] + PiecesOf(s[1..])
  }

  lemma {:induction false} EscapedIsGrammatical(s: string)
    ensures GrammaticalPieces(PiecesOf(s)) && PrintPieces(PiecesOf(s)) == Escaped(s)
  {
    if s != "" {
      PieceIsGrammatical(s[0]);
      EscapedIsGrammatical(s[1..]);
    }
  }

  /** Every string is quoted as the grammar has it. */
  lemma QuoteIsGrammatical(s: string)
    ensures GrammaticalPieces(PiecesOf(s)) && Quoted(PiecesOf(s)) == Quote(s)
  {
    EscapedIsGrammatical(s);
  }

  // ---- Lists of values and of members ----

  lemma {:induction false} ElementsAreGrammatical(texts: seq<string>) returns (elements: seq<Document>)
    requires texts != [] && forall t :: t in texts ==> IsText(t)
    ensures elements != [] && PrintElements(elements) == Join(texts, ",")
    ensures forall i :: 0 <= i < |elements| ==> GrammaticalDocument(elements[i])
  {
    assert texts[0] in texts;
    var v: Value :| Grammatical(v) && Print(v) == texts[0];
    var first := Document("", v, "");
    if |texts| == 1 {
      elements := [first];
    } else {
      var rest := ElementsAreGrammatical(texts[1..]);
      elements := [first] + rest;
      assert elements[1..] == rest;
      assert Join(texts, ",") == texts[0] + "," + Join(texts[1..], ",");
    }
  }

  lemma EntryIsGrammatical(e: (string, string)) returns (entry: Entry)
    requires IsText(e.1)
    ensures GrammaticalEntry(entry) && PrintEntry(entry) == EntryText(e)
  {
    var v: Value :| Grammatical(v) && Print(v) == e.1;
    QuoteIsGrammatical(e.0);
    entry := Entry("", PiecesOf(e.0), "", Document("", v, ""));
    assert PrintDocument(entry.value) == e.1;
    assert Quote(e.0) + ("" + (":" + e.1)) == Quote(e.0) + ":" + e.1;
  }

  lemma {:induction false} MembersAreGrammatical(es: seq<(string, string)>) returns (members: seq<Entry>)
    requires es != [] && forall e :: e in es ==> IsText(e.1)
    ensures members != [] && PrintMembers(members) == Join(EntryTexts(es), ",")
    ensures forall i :: 0 <= i < |members| ==> GrammaticalEntry(members[i])
  {
    assert es[0] in es;
    var first := EntryIsGrammatical(es[0]);
    EntryTextsAt(es);
    if |es| == 1 {
      members := [first];
    } else {
      var rest := MembersAreGrammatical(es[1..]);
      members := [first] + rest;
      assert members[1..] == rest && EntryTexts(es)[1..] == EntryTexts(es[1..]);
    }
  }

  // ---- Values ----

  lemma ArrayIsText(texts: seq<string>)
    requires forall t :: t in texts ==> IsText(t)
    ensures IsText("[" + Join(texts, ",") + "]")
  {
    var v := Array([], "");
    if texts != [] {
      var elements := ElementsAreGrammatical(texts);
      v := Array(elements, "");
    }
    assert Grammatical(v) && Print(v) == "[" + Join(texts, ",") + "]";
  }

  lemma ObjectIsText(es: seq<(string, string)>)
    requires forall e :: e in es ==> IsText(e.1)
    ensures IsText("{" + Join(EntryTexts(es), ",") + "}")
  {
    var v := Object([], "");
    if es != [] {
      var members := MembersAreGrammatical(es);
      v := Object(members, "");
    }
    assert Grammatical(v) && Print(v) == "{" + Join(EntryTexts(es), ",") + "}";
  }

  lemma TokenIsText(token: string)
    requires IsToken(token)
    ensures IsText(token)
  {
    assert Grammatical(Scalar(token)) && Print(Scalar(token)) == token;
  }

  lemma {:induction false} EntriesHold(members: seq<Member>)
    requires forall i :: 0 <= i < |members| ==> IsText(StableStringify(members[i].value))
    ensures forall e :: e in Entries(members) ==> IsText(e.1)
  {
    if members != [] { EntriesHold(members[1..]); }
  }

  /** The canonical text of every value is a JSON text. */
  lemma {:induction false} CanonicalTextIsJson(v: Json)
    requires WellFormed(v)
    ensures IsText(StableStringify(v))
  {
    match v
    case Undefined => TokenIsText("null");
    case Null => TokenIsText("null");
    case Bool(b) => TokenIsText(if b then "true" else "false");
    case Number(token) => TokenIsText(token);
    case Str(s) =>
      QuoteIsGrammatical(s);
      assert Grammatical(Text(PiecesOf(s))) && Print(Text(PiecesOf(s))) == Quote(s);
    case Arr(elements) =>
      TextsAt(elements);
      forall i | 0 <= i < |elements| ensures IsText(StableStringify(elements[i])) { CanonicalTextIsJson(elements[i]); }
      ArrayIsText(Texts(elements));
    case Obj(members) =>
      forall i | 0 <= i < |members| ensures IsText(StableStringify(members[i].value)) { CanonicalTextIsJson(members[i].value); }
      EntriesHold(members);
      SortByMembers(Entries(members), ByKey);
      ObjectIsText(SortBy(Entries(members), ByKey));
  }

  // ---- The scanners on canonical text ----

  lemma BraceOpensObject(v: Value)
    requires Grammatical(v) && Print(v) != "" && Print(v)[0] == '{'
    ensures v.Object?
  {
  }

  /** A canonical object inside any text is extracted whole, and first when no brace comes before it. */
  lemma CanonicalObjectIsExtracted(v: Json, content: string, p: nat)
    requires WellFormed(v) && v.Obj? && p <= |content| && StableStringify(v) <= content[p..]
    ensures StableStringify(v) in Extracted(content, 0)
    ensures '{' !in content[..p] ==> Extracted(content, 0)[0] == StableStringify(v)
  {
    CanonicalTextIsJson(v);
    var g: Value :| Grammatical(g) && Print(g) == StableStringify(v);
    BraceOpensObject(g);
    EmbeddedObjectIsExtracted(g, content, p);
  }
}
