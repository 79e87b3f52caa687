/** JSON string escaping, proved against a reader for the string grammar of RFC 8259,
    section 7. A `char` is a Unicode scalar value. */
module JsonText {
  import opened Wrappers

  // ---- The writer ----

  /** Unicode category Cc. */
  predicate IsControl(c: char) {
    c < ' ' || '\U{7F}' <= c <= '\U{9F}'
  }

  function EscapeChar(c: char): string {
    if c == '"' then "\\\""
    else if c == '\\' then "\\\\"
    else if c == '\n' then "\\n"
    else if c == '\r' then "\\r"
    else if c == '\t' then "\\t"
    else if IsControl(c) then " "
    else [c]
  }

  function Escaped(value: string): string {
    if value == "" then "" else EscapeChar(value[0]) + Escaped(value[1..])
  }

  method EscapeJson(value: string) returns (output: string)
    ensures output == Escaped(value)
  {
    output := "";
    assert value[0..] == value;
    for i := 0 to |value|
      invariant output + Escaped(value[i..]) == Escaped(value)
    {
      var character := value[i];
      assert value[i..][1..] == value[i + 1..];
      ghost var rest := Escaped(value[i + 1..]);
      assert output + (EscapeChar(character) + rest) == (output + EscapeChar(character)) + rest;
      if character == '"' {
        output := output + "\\\"";
      } else if character == '\\' {
        output := output + "\\\\";
      } else if character == '\n' {
        output := output + "\\n";
      } else if character == '\r' {
        output := output + "\\r";
      } else if character == '\t' {
        output := output + "\\t";
      } else if IsControl(character) {
        output := output + [' '];
      } else {
        output := output + [character];
      }
    }
  }

  // ---- The reader ----

  /** Decoded text and what follows the closing quotation mark. */
  datatype Parsed = Parsed(text: string, rest: string)

  function HexDigit(c: char): Option<nat> {
    if '0' <= c <= '9' then Some((c as int) - ('0' as int))
    else if 'a' <= c <= 'f' then Some((c as int) - ('a' as int) + 10)
    else if 'A' <= c <= 'F' then Some((c as int) - ('A' as int) + 10)
    else None
  }

  /** The UTF-16 code unit of a `\uXXXX` sequence at the front of the input. */
  function CodeUnit(input: string): (unit: Option<nat>)
    ensures unit.Some? ==> |input| >= 6 && unit.value < 0x1_0000
  {
    if |input| >= 6 && input[0] == '\\' && input[1] == 'u'
       && HexDigit(input[2]).Some? && HexDigit(input[3]).Some? && HexDigit(input[4]).Some? && HexDigit(input[5]).Some?
    then
      Some(0x1000 * HexDigit(input[2]).value + 0x100 * HexDigit(input[3]).value
           + 0x10 * HexDigit(input[4]).value + HexDigit(input[5]).value)
    else None
  }

  /** The two-character escapes. */
  function Simple(c: char): Option<char> {
    match c
    case '"' => Some('"')
    case '\\' => Some('\\')
    case '/' => Some('/')
    case 'b' => Some('\U{8}')
    case 'f' => Some('\U{C}')
    case 'n' => Some('\n')
    case 'r' => Some('\r')
    case 't' => Some('\t')
    case _ => None
  }

  function Prepended(c: char, tail: Option<Parsed>): Option<Parsed> {
    match tail
    case None => None
    case Some(parsed) => Some(Parsed([c] + parsed.text, parsed.rest))
  }

  /** Reads characters up to the closing quotation mark. */
  function ReadChars(input: string): Option<Parsed>
    decreases |input|
  {
    if input == "" then None
    else if input[0] == '"' then Some(Parsed("", input[1..]))
    else if input[0] == '\\' then
      if |input| < 2 then None
      else if Simple(input[1]).Some? then Prepended(Simple(input[1]).value, ReadChars(input[2..]))
      else ReadUnicode(input)
    else if input[0] < ' ' then None
    else Prepended(input[0], ReadChars(input[1..]))
  }

  /** A `\uXXXX` escape, or a surrogate pair of them. */
  function ReadUnicode(input: string): Option<Parsed>
    decreases |input|, 0
  {
    match CodeUnit(input)
    case None => None
    case Some(high) =>
      if 0xDC00 <= high < 0xE000 then None
      else if 0xD800 <= high < 0xDC00 then
        match CodeUnit(input[6..])
        case None => None
        case Some(low) =>
          if 0xDC00 <= low < 0xE000 then
            Prepended((0x1_0000 + (high - 0xD800) * 0x400 + (low - 0xDC00)) as char, ReadChars(input[12..]))
          else None
      else Prepended(high as char, ReadChars(input[6..]))
  }

  function ReadString(input: string): Option<Parsed> {
    if input != "" && input[0] == '"' then ReadChars(input[1..]) else None
  }

  // ---- What a reader sees ----

  /** Control characters that are not escaped turn into spaces. */
  function Cleaned(value: string): (r: string)
    ensures |r| == |value|
  {
    seq(|value|, i requires 0 <= i < |value| => CleanedChar(value[i]))
  }

  predicate Dropped(c: char) {
    IsControl(c) && c != '\n' && c != '\r' && c != '\t'
  }

  function CleanedChar(c: char): char {
    if Dropped(c) then ' ' else c
  }

  lemma ReadsEscapedChar(c: char, tail: string)
    ensures ReadChars(EscapeChar(c) + tail) == Prepended(CleanedChar(c), ReadChars(tail))
  {
    var input := EscapeChar(c) + tail;
    if |EscapeChar(c)| == 2 {
      assert input[2..] == tail;
      assert input[0] == '\\' && input[1] == EscapeChar(c)[1];
      assert Simple(input[1]) == Some(CleanedChar(c));
    } else {
      assert input[1..] == tail;
      assert input[0] == CleanedChar(c);
    }
  }

  lemma {:induction false} ReadsEscaped(value: string, tail: string)
    ensures ReadChars(Escaped(value) + ("\"" + tail)) == Some(Parsed(Cleaned(value), tail))
  {
    hide ReadChars, EscapeChar, CleanedChar;
    var rest := "\"" + tail;
    if value == "" {
      assert Escaped(value) + rest == rest;
      ReadsQuote(tail);
    } else {
      ReadsEscaped(value[1..], tail);
      assert Escaped(value) + rest == EscapeChar(value[0]) + (Escaped(value[1..]) + rest);
      ReadsEscapedChar(value[0], Escaped(value[1..]) + rest);
      assert Cleaned(value) == [CleanedChar(value[0])] + Cleaned(value[1..]);
    }
  }

  lemma ReadsQuote(tail: string)
    ensures ReadChars("\"" + tail) == Some(Parsed("", tail))
  {
    assert ("\"" + tail)[1..] == tail;
  }

  /** Inside any document, the quoted text is accepted, ends exactly at its own closing
      quotation mark, and reads back as the value with control characters blanked. */
  lemma ReaderAcceptsEscaped(value: string, tail: string)
    ensures ReadString("\"" + Escaped(value) + "\"" + tail) == Some(Parsed(Cleaned(value), tail))
  {
    var input := "\"" + Escaped(value) + "\"" + tail;
    assert input[1..] == Escaped(value) + ("\"" + tail);
    ReadsEscaped(value, tail);
  }

  /** Exactly the values without other control characters survive the round trip. */
  lemma RoundTripIff(value: string, tail: string)
    ensures ReadString("\"" + Escaped(value) + "\"" + tail) == Some(Parsed(value, tail))
            <==> forall c :: c in value ==> !Dropped(c)
  {
    ReaderAcceptsEscaped(value, tail);
    if forall c :: c in value ==> !Dropped(c) {
      assert Cleaned(value) == value;
    }
    if Cleaned(value) == value {
      forall c | c in value ensures !Dropped(c) {
        var i :| 0 <= i < |value| && value[i] == c;
        assert Cleaned(value)[i] == CleanedChar(c);
      }
    }
  }

  /** Two values share their escaped form exactly when a reader cannot tell them apart. */
  lemma EscapedInjective(a: string, b: string)
    ensures Escaped(a) == Escaped(b) <==> Cleaned(a) == Cleaned(b)
  {
    ReadsEscaped(a, "");
    ReadsEscaped(b, "");
    EscapedOfCleaned(a);
    EscapedOfCleaned(b);
  }

  lemma {:induction false} EscapedOfCleaned(value: string)
    ensures Escaped(Cleaned(value)) == Escaped(value)
  {
    if value != "" {
      EscapedOfCleaned(value[1..]);
      assert Cleaned(value)[1..] == Cleaned(value[1..]);
      assert Cleaned(value)[0] == CleanedChar(value[0]);
    }
  }

  /** No control character is ever written, so a document stays on its line. */
  lemma {:induction false} NoControlWritten(value: string)
    ensures forall c :: c in Escaped(value) ==> !IsControl(c)
  {
    if value != "" {
      NoControlWritten(value[1..]);
      assert forall c :: c in EscapeChar(value[0]) ==> !IsControl(c);
    }
  }

  /** The characters that need a second one. */
  predicate NeedsBackslash(c: char) {
    c == '"' || c == '\\' || c == '\n' || c == '\r' || c == '\t'
  }

  function BackslashCount(value: string): nat {
    if value == "" then 0 else (if NeedsBackslash(value[0]) then 1 else 0) + BackslashCount(value[1..])
  }

  /** Every character costs one, and one more exactly if it needs a backslash. */
  lemma {:induction false} EscapedLength(value: string)
    ensures |Escaped(value)| == |value| + BackslashCount(value)
  {
    if value != "" {
      EscapedLength(value[1..]);
    }
  }
}
