/** How `JSON.stringify` writes a string (the QuoteJSONString operation of ECMA-262). */
module JsonText {

  const HEX := "0123456789abcdef"

  function EscapeChar(c: char): string {
    if c == '\"' then "\\\""
    else if c == '\\' then "\\\\"
    else if c == '\U{8}' then "\\b"
    else if c == '\t' then "\\t"
    else if c == '\n' then "\\n"
    else if c == '\U{C}' then "\\f"
    else if c == '\r' then "\\r"
    else if c < ' ' then "\\u00" + [HEX[c as int / 16], HEX[c as int % 16]]
    else [c]
  }

  function Escaped(s: string): string {
    if s == "" then "" else EscapeChar(s[0]) + Escaped(s[1..])
  }

  function Quote(s: string): string {
    "\"" + Escaped(s) + "\""
  }

  /** What an escape looks like, and how its characters give the character back. */
  predicate Encodes(e: string, c: char) {
    || (|e| == 1 && e[0] == c && c != '\\')
    || (|e| == 2 && e[0] == '\\' && e[1] != 'u')
    || (|e| == 6 && e[0] == '\\' && e[1] == 'u' && c < ' ' && e[4] == HEX[c as int / 16] && e[5] == HEX[c as int % 16])
  }

  /** An escape can be told from what follows it. */
  lemma EscapeCharPrefixFree(c: char, d: char, x: string, y: string)
    requires EscapeChar(c) + x == EscapeChar(d) + y
    ensures c == d && x == y
  {
    var e, f := EscapeChar(c), EscapeChar(d);
    SameEscape(c, d, e, f, x, y);
    assert x == (e + x)[|e|..] && y == (f + y)[|f|..];
  }

  lemma SameEscape(c: char, d: char, e: string, f: string, x: string, y: string)
    requires e + x == f + y
    requires Encodes(e, c) && Encodes(f, d)
    ensures |e| == |f| && (|e| != 2 ==> c == d) && (|e| == 2 ==> e[1] == f[1])
  {
    var s, t := e + x, f + y;
    assert s[0] == e[0] && t[0] == f[0];
    if |e| > 1 && |f| > 1 {
      assert s[1] == e[1] && t[1] == f[1];
      if |e| == 6 && |f| == 6 {
        assert s[4] == e[4] && t[4] == f[4] && s[5] == e[5] && t[5] == f[5];
        assert c as int == d as int;
      }
    }
  }

  lemma Regroup(first: string, rest: string, x: string)
    requires first != ""
    ensures (first + rest + "\"" + x)[0] == first[0] && first + rest + "\"" + x == first + (rest + "\"" + x)
  {
  }

  /** The closing quote is where the escaped text ends: no escape starts with one. */
  lemma EscapedStarts(a: string, x: string)
    ensures (Escaped(a) + "\"" + x)[0] == '\"' <==> a == ""
    ensures a != "" ==> Escaped(a) + "\"" + x == EscapeChar(a[0]) + (Escaped(a[1..]) + "\"" + x)
  {
    if a != "" {
      Regroup(EscapeChar(a[0]), Escaped(a[1..]), x);
    }
  }

  lemma Unquoted(text: string, x: string)
    ensures ("\"" + text + "\"" + x)[1..] == text + "\"" + x
  {
  }

  /** Quoted text can be told from what follows it, whatever the string holds. */
  lemma {:induction false} EscapedPrefixFree(a: string, b: string, x: string, y: string)
    requires Escaped(a) + "\"" + x == Escaped(b) + "\"" + y
    ensures a == b && x == y
  {
    EscapedStarts(a, x);
    EscapedStarts(b, y);
    if a == "" {
      assert x == (Escaped(a) + "\"" + x)[1..] == (Escaped(b) + "\"" + y)[1..] == y;
    } else {
      EscapeCharPrefixFree(a[0], b[0], Escaped(a[1..]) + "\"" + x, Escaped(b[1..]) + "\"" + y);
      EscapedPrefixFree(a[1..], b[1..], x, y);
      assert a == [a[0]] + a[1..] && b == [b[0]] + b[1..];
    }
  }

  lemma QuotePrefixFree(a: string, b: string, x: string, y: string)
    requires Quote(a) + x == Quote(b) + y
    ensures a == b && x == y
  {
    Unquoted(Escaped(a), x);
    Unquoted(Escaped(b), y);
    EscapedPrefixFree(a, b, x, y);
  }

  // ---- Reading a string back ----

  /** What the letter after a backslash stands for (section 7 of RFC 8259); `u` and unknown letters are not among them. */
  function Meant(letter: char): (c: char)
  {
    match letter
    case 'b' => '\U{8}'
    case 'f' => '\U{C}'
    case 'n' => '\n'
    case 'r' => '\r'
    case 't' => '\t'
    case _ => letter
  }

  function HexDigit(c: char): nat {
    if '0' <= c <= '9' then c as int - '0' as int else if 'a' <= c <= 'f' then c as int - 'a' as int + 10 else 0
  }

  /** The character with this code, unless it is half of a surrogate pair. */
  function CodeUnit(digits: string): string
    requires |digits| == 4
  {
    var n := 4096 * HexDigit(digits[0]) + 256 * HexDigit(digits[1]) + 16 * HexDigit(digits[2]) + HexDigit(digits[3]);
    if n < 0xD800 then [n as char] else ""
  }

  /** Reads a string of JSON after its opening quote, up to its closing quote, and what follows it. */
  function ReadString(text: string): (r: (string, string))
    decreases |text|
  {
    if text == "" then ("", "")
    else if text[0] == '\"' then ("", text[1..])
    else if text[0] == '\\' && |text| >= 6 && text[1] == 'u' then
      var rest := ReadString(text[6..]);
      (CodeUnit(text[2..6]) + rest.0, rest.1)
    else if text[0] == '\\' && |text| >= 2 then
      var rest := ReadString(text[2..]);
      ([Meant(text[1])] + rest.0, rest.1)
    else
      var rest := ReadString(text[1..]);
      ([text[0]] + rest.0, rest.1)
  }

  lemma HexDigitsRead(n: nat)
    requires n < 16
    ensures HexDigit(HEX[n]) == n
  {
  }

  lemma ReadsControl(c: char)
    requires |EscapeChar(c)| == 6
    ensures CodeUnit(EscapeChar(c)[2..6]) == [c]
  {
    HexDigitsRead(c as int / 16);
    HexDigitsRead(c as int % 16);
    assert HexDigit('0') == 0;
  }

  lemma ReadsOne(c: char, more: string)
    requires c != '\"' && c != '\\'
    ensures ReadString([c] + more) == ([c] + ReadString(more).0, ReadString(more).1)
  {
    assert ([c] + more)[1..] == more;
  }

  lemma ReadsTwo(e: string, more: string)
    requires |e| == 2 && e[0] == '\\' && e[1] != 'u'
    ensures ReadString(e + more) == ([Meant(e[1])] + ReadString(more).0, ReadString(more).1)
  {
    assert (e + more)[0] == e[0] && (e + more)[1] == e[1] && (e + more)[2..] == more;
  }

  lemma ReadsSix(e: string, more: string)
    requires |e| == 6 && e[0] == '\\' && e[1] == 'u'
    ensures ReadString(e + more) == (CodeUnit(e[2..6]) + ReadString(more).0, ReadString(more).1)
  {
    assert (e + more)[0] == e[0] && (e + more)[1] == e[1] && (e + more)[2..6] == e[2..6] && (e + more)[6..] == more;
  }

  /** Reading takes one escape at a time, and gives back the character it was written for. */
  lemma ReadsEscape(c: char, more: string)
    ensures ReadString(EscapeChar(c) + more) == ([c] + ReadString(more).0, ReadString(more).1)
  {
    var e := EscapeChar(c);
    if |e| == 1 {
      ReadsOne(c, more);
    } else if |e| == 2 {
      ReadsTwo(e, more);
    } else {
      ReadsSix(e, more);
      ReadsControl(c);
    }
  }

  /** A quoted string read as JSON is the string again, wherever it stands. */
  lemma {:induction false} QuoteReadsBack(s: string, more: string)
    ensures Quote(s)[0] == '\"' && ReadString((Quote(s) + more)[1..]) == (s, more)
  {
    Unquoted(Escaped(s), more);
    EscapedReadsBack(s, more);
  }

  lemma {:induction false} EscapedReadsBack(s: string, more: string)
    ensures ReadString(Escaped(s) + "\"" + more) == (s, more)
  {
    EscapedStarts(s, more);
    if s == "" {
      assert (Escaped(s) + "\"" + more)[1..] == more;
    } else {
      ReadsEscape(s[0], Escaped(s[1..]) + "\"" + more);
      EscapedReadsBack(s[1..], more);
      assert [s[0]] + s[1..] == s;
    }
  }

  // ---- Line ends ----

  /** The line terminators of JavaScript (section 12.3 of ECMA-262): LF, CR, LS and PS. Each of them ends a `//` comment. */
  predicate EndsLine(c: char) {
    c == '\n' || c == '\r' || c == '\U{2028}' || c == '\U{2029}'
  }

  predicate OneLine(s: string) {
    '\n' !in s && '\r' !in s && NoSeparator(s)
  }

  /** No line or paragraph separator, the two line ends that `JSON.stringify` does not escape. */
  predicate NoSeparator(s: string) {
    '\U{2028}' !in s && '\U{2029}' !in s
  }

  /** A text of printable ASCII characters is one line. */
  lemma PrintableIsOneLine(s: string)
    requires forall i :: 0 <= i < |s| ==> ' ' <= s[i] <= '~'
    ensures OneLine(s)
  {
  }

  lemma EscapeCharIsOneLine(c: char)
    ensures OneLine(EscapeChar(c)) <==> NoSeparator([c])
  {
    if EscapeChar(c) != [c] { PrintableIsOneLine(EscapeChar(c)); }
  }

  lemma OneLineConcat(a: string, b: string)
    ensures OneLine(a + b) <==> OneLine(a) && OneLine(b)
  {
    assert forall c :: c in a + b <==> c in a || c in b;
  }

  lemma {:induction false} EscapedIsOneLine(s: string)
    ensures OneLine(Escaped(s)) <==> NoSeparator(s)
  {
    if s != "" {
      EscapeCharIsOneLine(s[0]);
      EscapedIsOneLine(s[1..]);
      OneLineConcat(EscapeChar(s[0]), Escaped(s[1..]));
      assert s == [s[0]] + s[1..];
    }
  }

  /** Quoting hides CR and LF, and nothing else that ends a line. */
  lemma QuoteIsOneLine(s: string)
    ensures OneLine(Quote(s)) <==> NoSeparator(s)
  {
    EscapedIsOneLine(s);
    OneLineConcat("\"", Escaped(s));
    OneLineConcat("\"" + Escaped(s), "\"");
  }
}
