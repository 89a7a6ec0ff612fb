/** The lenient object parser: position-passing functions, each beside the loop that computes it. */
module DpString {
  import opened Options
  import opened JsonText

  datatype Error =
    | UnterminatedComment
    | UnterminatedEscape
    | InvalidEscape
    | UnterminatedString
    | ExpectedLiteral
    | EndOfInput
    | NamesMustBeStrings
    | ExpectedColon
    | UnterminatedObject
    | UnterminatedArray
    | ObjectExpected

  /** A value with the position after it, or the error. */
  datatype Parse<+T> = Done(value: T, pos: nat) | Fail(error: Error)

  /** What the scanner returns at the end of the text, where no character stands. */
  const END: int := -1

  // ------------------------------------------------------------------------------------------
  // White space and comments
  // ------------------------------------------------------------------------------------------

  predicate IsSpace(c: CodePoint) {
    c == TAB || c == BLANK || c == LF || c == CR
  }

  function SkipLine(text: Text, pos: nat): (r: nat)
    ensures pos <= r && (pos <= |text| ==> r <= |text|)
    decreases |text| - pos
  {
    if pos >= |text| then pos
    else if text[pos] == CR || text[pos] == LF then pos + 1
    else SkipLine(text, pos + 1)
  }

  method SkipToEndOfLine(text: Text, start: nat) returns (pos: nat)
    ensures pos == SkipLine(text, start)
  {
    pos := start;
    while pos < |text|
      invariant SkipLine(text, pos) == SkipLine(text, start)
    {
      var c := text[pos];
      pos := pos + 1;
      if c == CR || c == LF {
        break;
      }
    }
  }

  /** The place of the first comment end from pos on, if there is one. */
  function FindCommentEnd(text: Text, pos: nat): (r: Option<nat>)
    ensures r.Some? ==> pos <= r.value && r.value + 2 <= |text|
    decreases |text| - pos
  {
    if pos + 2 > |text| then None
    else if text[pos] == STAR && text[pos + 1] == SLASH then Some(pos)
    else FindCommentEnd(text, pos + 1)
  }

  /** The next character that is neither white space nor part of a comment, with its position. */
  function NextClean(text: Text, pos: nat): (r: Parse<int>)
    ensures r.Done? ==> pos <= r.pos
    ensures r.Done? && r.value == END ==> r.pos >= |text| && (pos <= |text| ==> r.pos == |text|)
    ensures r.Done? && r.value != END ==> r.pos < |text| && r.value == text[r.pos]
    decreases |text| - pos
  {
    if pos >= |text| then Done(END, pos)
    else if IsSpace(text[pos]) then NextClean(text, pos + 1)
    else if text[pos] == SLASH then
      if pos + 1 == |text| then Done(SLASH, pos)
      else if text[pos + 1] == STAR then
        match FindCommentEnd(text, pos + 2)
        case None => Fail(UnterminatedComment)
        case Some(end) => NextClean(text, end + 2)
      else if text[pos + 1] == SLASH then NextClean(text, SkipLine(text, pos + 2))
      else Done(SLASH, pos)
    else if text[pos] == HASH then NextClean(text, SkipLine(text, pos + 1))
    else Done(text[pos], pos)
  }

  method ScanClean(text: Text, start: nat) returns (r: Parse<int>)
    ensures r == NextClean(text, start)
  {
    var pos := start;
    while pos < |text|
      invariant NextClean(text, pos) == NextClean(text, start)
    {
      var c := text[pos];
      pos := pos + 1;
      if IsSpace(c) {
        continue;
      }
      if c == SLASH {
        if pos == |text| {
          return Done(c, pos - 1);
        }
        var peek := text[pos];
        if peek == STAR {
          var end := FindCommentEnd(text, pos + 1);
          if end.None? {
            return Fail(UnterminatedComment);
          }
          pos := end.value + 2;
          continue;
        }
        if peek == SLASH {
          pos := SkipToEndOfLine(text, pos + 1);
          continue;
        }
        return Done(c, pos - 1);
      }
      if c == HASH {
        pos := SkipToEndOfLine(text, pos);
        continue;
      }
      return Done(c, pos - 1);
    }
    return Done(END, pos);
  }

  // ------------------------------------------------------------------------------------------
  // Strings
  // ------------------------------------------------------------------------------------------

  /** The character of a unicode escape. Four hexadecimal digits are read here, the spellings
      beyond them that the runtime also takes are its own. */
  function UnicodeEscape(rt: Runtime, hex: Text): Option<CodePoint>
    requires |hex| == 4
  {
    if AllDigits(hex, 16) then
      Some(DigitValue(hex[0]) * 4096 + DigitValue(hex[1]) * 256
           + DigitValue(hex[2]) * 16 + DigitValue(hex[3]))
    else rt.laxEscape(hex)
  }

  /** The escape whose backslash has been read. */
  function ReadEscape(rt: Runtime, text: Text, pos: nat): (r: Parse<CodePoint>)
    ensures r.Done? ==> pos < r.pos <= |text|
  {
    if pos >= |text| then Fail(UnterminatedEscape)
    else
      var e := text[pos];
      if e == 0x75 then
        if pos + 5 > |text| then Fail(UnterminatedEscape)
        else
          match UnicodeEscape(rt, text[pos + 1..pos + 5])
          case None => Fail(InvalidEscape)
          case Some(c) => Done(c, pos + 5)
      else if e == 0x74 then Done(TAB, pos + 1)
      else if e == 0x62 then Done(0x08, pos + 1)
      else if e == 0x6E then Done(LF, pos + 1)
      else if e == 0x72 then Done(CR, pos + 1)
      else if e == 0x66 then Done(FF, pos + 1)
      else Done(e, pos + 1)
  }

  /** The rest of a string from pos on, after what has been read of it. */
  function StringBody(rt: Runtime, text: Text, pos: nat, quote: CodePoint, read: Text)
    : (r: Parse<Text>)
    ensures r.Done? ==> pos < r.pos <= |text|
    ensures r.Done? ==> read <= r.value && |r.value| - |read| < r.pos - pos
    decreases |text| - pos
  {
    if pos >= |text| then Fail(UnterminatedString)
    else if text[pos] == quote then Done(read, pos + 1)
    else if text[pos] == BACKSLASH then
      match ReadEscape(rt, text, pos + 1)
      case Fail(error) => Fail(error)
      case Done(e, next) => StringBody(rt, text, next, quote, read + [e])
    else StringBody(rt, text, pos + 1, quote, read + [text[pos]])
  }

  /** The string whose opening quote stands at pos. */
  function NextString(rt: Runtime, text: Text, pos: nat, quote: CodePoint): (r: Parse<Text>)
    ensures r.Done? ==> pos + 1 < r.pos <= |text| && |r.value| + 1 < r.pos - pos
  {
    StringBody(rt, text, pos + 1, quote, [])
  }

  method ScanString(rt: Runtime, text: Text, start: nat, quote: CodePoint)
    returns (r: Parse<Text>)
    ensures r == NextString(rt, text, start, quote)
  {
    var out: Text := [];
    var pos := start + 1;
    while pos < |text|
      invariant StringBody(rt, text, pos, quote, out) == NextString(rt, text, start, quote)
    {
      var c := text[pos];
      pos := pos + 1;
      if c == quote {
        return Done(out, pos);
      }
      if c == BACKSLASH {
        var escape := ReadEscape(rt, text, pos);
        if escape.Fail? {
          return Fail(escape.error);
        }
        out, pos := out + [escape.value], escape.pos;
      } else {
        out := out + [c];
      }
    }
    return Fail(UnterminatedString);
  }

  // ------------------------------------------------------------------------------------------
  // Literals
  // ------------------------------------------------------------------------------------------

  predicate EndsLiteral(c: CodePoint) {
    c in {OPEN_BRACE, CLOSE_BRACE, OPEN_BRACKET, CLOSE_BRACKET, SLASH, BACKSLASH, COLON, COMMA,
          EQUALS, SEMICOLON, HASH, BLANK, TAB, FF, CR, LF}
  }

  function LiteralEnd(text: Text, pos: nat): (r: nat)
    ensures pos <= r && (pos <= |text| ==> r <= |text|)
    decreases |text| - pos
  {
    if pos >= |text| || EndsLiteral(text[pos]) then pos else LiteralEnd(text, pos + 1)
  }

  /** Equality after lower-casing, for a word whose letters have no other lower-case forms. */
  predicate SameWord(s: Text, word: Text) {
    |s| == |word|
    && forall i :: 0 <= i < |s| ==> s[i] == word[i] || (s[i] as int) + 0x20 == word[i]
  }

  function NumberBase(literal: Text): (r: (Text, nat)) {
    if |literal| >= 2 && literal[0] == ZERO && (literal[1] == 0x78 || literal[1] == 0x58) then
      (literal[2..], 16)
    else if |literal| > 1 && literal[0] == ZERO then (literal[1..], 8)
    else (literal, 10)
  }

  /** What an unquoted token means. */
  function Classify(rt: Runtime, literal: Text): (v: JsonValue)
    ensures v.JString? ==> v.text == literal
    ensures !v.JObject? && !v.JArray?
  {
    if SameWord(literal, NULL_WORD) then JNull
    else if SameWord(literal, TRUE_WORD) then JBool(true)
    else if SameWord(literal, FALSE_WORD) then JBool(false)
    else
      var (number, base) := NumberBase(literal);
      var long := if DOT in literal then None else ParseLong(number, base);
      if long.Some? then JLong(long.value)
      else if rt.isDouble(literal) then JDouble(literal)
      else JString(literal)
  }

  function ReadLiteral(rt: Runtime, text: Text, pos: nat): (r: Parse<JsonValue>)
    requires pos <= |text|
    ensures r.Done? ==> pos < r.pos <= |text|
    ensures r.Done? && r.value.JString? ==> |r.value.text| <= r.pos - pos
  {
    var end := LiteralEnd(text, pos);
    if end == pos then Fail(ExpectedLiteral) else Done(Classify(rt, text[pos..end]), end)
  }

  method ScanLiteral(rt: Runtime, text: Text, start: nat) returns (r: Parse<JsonValue>)
    requires start <= |text|
    ensures r == ReadLiteral(rt, text, start)
  {
    var pos := start;
    while pos < |text| && !EndsLiteral(text[pos])
      invariant start <= pos <= |text|
      invariant LiteralEnd(text, pos) == LiteralEnd(text, start)
    {
      pos := pos + 1;
    }
    if pos == start {
      return Fail(ExpectedLiteral);
    }
    return Done(Classify(rt, text[start..pos]), pos);
  }

  // ------------------------------------------------------------------------------------------
  // Values, objects and arrays
  // ------------------------------------------------------------------------------------------

  predicate SeparatesName(c: int) {
    c == COLON || c == EQUALS || c == END
  }

  predicate SeparatesItem(c: int) {
    c == SEMICOLON || c == COMMA || c == END
  }

  /** A value: it ends strictly after pos and inside the text, on every input. */
  function NextValue(rt: Runtime, text: Text, pos: nat): (r: Parse<JsonValue>)
    ensures r.Done? ==> pos < r.pos <= |text|
    ensures r.Done? && r.value.JString? ==> |r.value.text| <= r.pos - pos
    decreases |text| - pos, 0
  {
    match NextClean(text, pos)
    case Fail(error) => Fail(error)
    case Done(c, at) =>
      if c == END then Fail(EndOfInput)
      else if c == OPEN_BRACE then ReadObject(rt, text, at + 1)
      else if c == OPEN_BRACKET then Items(rt, text, at + 1, [], false)
      else if c == QUOTE || c == APOSTROPHE then
        match NextString(rt, text, at, c)
        case Fail(error) => Fail(error)
        case Done(s, next) => Done(JString(s), next)
      else ReadLiteral(rt, text, at)
  }

  /** The object whose opening brace stands just before pos. */
  function ReadObject(rt: Runtime, text: Text, pos: nat): (r: Parse<JsonValue>)
    ensures r.Done? ==> pos < r.pos <= |text| && r.value.JObject?
    decreases |text| - pos, 3
  {
    match NextClean(text, pos)
    case Fail(error) => Fail(error)
    case Done(c, at) =>
      if c == CLOSE_BRACE then Done(JObject([]), at + 1) else Members(rt, text, at, [])
  }

  /** The members of an object from pos on, after the entries already read. */
  function Members(rt: Runtime, text: Text, pos: nat, entries: seq<Entry>): (r: Parse<JsonValue>)
    ensures r.Done? ==> pos < r.pos <= |text| && r.value.JObject?
    decreases |text| - pos, 2
  {
    match Member(rt, text, pos)
    case Fail(error) => Fail(error)
    case Done(entry, next) =>
      var updated := Assign(entries, entry.key, entry.value);
      match NextClean(text, next)
      case Fail(error) => Fail(error)
      case Done(c, at) =>
        if c == CLOSE_BRACE then Done(JObject(updated), at + 1)
        else if SeparatesItem(c) then Members(rt, text, at + 1, updated)
        else Fail(UnterminatedObject)
  }

  /** One name, its separator and its value. */
  function Member(rt: Runtime, text: Text, pos: nat): (r: Parse<Entry>)
    ensures r.Done? ==> pos < r.pos <= |text|
    ensures r.Done? && r.value.value.JString? ==> |r.value.value.text| + 2 <= r.pos - pos
    decreases |text| - pos, 1
  {
    match NextValue(rt, text, pos)
    case Fail(error) => Fail(error)
    case Done(name, afterName) =>
      if !name.JString? then Fail(NamesMustBeStrings)
      else
        match Separator(text, afterName)
        case Fail(error) => Fail(error)
        case Done(_, from) =>
          match NextValue(rt, text, from)
          case Fail(error) => Fail(error)
          case Done(value, next) => Done(Entry(name.text, value), next)
  }

  /** The separator between a name and its value, which may be followed by '>'. */
  function Separator(text: Text, pos: nat): (r: Parse<()>)
    ensures r.Done? ==> pos < r.pos
  {
    match NextClean(text, pos)
    case Fail(error) => Fail(error)
    case Done(c, at) =>
      if !SeparatesName(c) then Fail(ExpectedColon)
      else if at + 1 < |text| && text[at + 1] == GREATER then Done((), at + 2)
      else Done((), at + 1)
  }

  /** The items of an array from pos on, after those already read. */
  function Items(rt: Runtime, text: Text, pos: nat, items: seq<JsonValue>, trailing: bool)
    : (r: Parse<JsonValue>)
    ensures r.Done? ==> pos < r.pos <= |text| && r.value.JArray?
    decreases |text| - pos, 1
  {
    match NextClean(text, pos)
    case Fail(error) => Fail(error)
    case Done(c, at) =>
      if c == END then Fail(UnterminatedArray)
      else if c == CLOSE_BRACKET then
        Done(JArray(if trailing then items + [JNull] else items), at + 1)
      else if c == COMMA || c == SEMICOLON then
        Items(rt, text, at + 1, items + [JNull], true)
      else
        match NextValue(rt, text, at)
        case Fail(error) => Fail(error)
        case Done(value, next) =>
          match NextClean(text, next)
          case Fail(error) => Fail(error)
          case Done(d, after) =>
            if d == CLOSE_BRACKET then Done(JArray(items + [value]), after + 1)
            else if SeparatesItem(d) then Items(rt, text, after + 1, items + [value], true)
            else Fail(UnterminatedArray)
  }

  method ParseValue(rt: Runtime, text: Text, pos: nat) returns (r: Parse<JsonValue>)
    ensures r == NextValue(rt, text, pos)
    decreases |text| - pos, 0
  {
    var clean := ScanClean(text, pos);
    if clean.Fail? {
      return Fail(clean.error);
    }
    var c, at := clean.value, clean.pos;
    if c == END {
      return Fail(EndOfInput);
    }
    if c == OPEN_BRACE {
      r := ParseObjectBody(rt, text, at + 1);
    } else if c == OPEN_BRACKET {
      r := ParseItems(rt, text, at + 1);
    } else if c == QUOTE || c == APOSTROPHE {
      var s := ScanString(rt, text, at, c);
      r := match s case Fail(error) => Fail(error) case Done(v, next) => Done(JString(v), next);
    } else {
      r := ScanLiteral(rt, text, at);
    }
  }

  method ScanSeparator(text: Text, start: nat) returns (r: Parse<()>)
    ensures r == Separator(text, start)
  {
    var clean := ScanClean(text, start);
    if clean.Fail? {
      return Fail(clean.error);
    }
    if !SeparatesName(clean.value) {
      return Fail(ExpectedColon);
    }
    var pos := clean.pos + 1;
    if pos < |text| && text[pos] == GREATER {
      pos := pos + 1;
    }
    return Done((), pos);
  }

  method ParseMember(rt: Runtime, text: Text, pos: nat) returns (r: Parse<Entry>)
    ensures r == Member(rt, text, pos)
    decreases |text| - pos, 1
  {
    var name := ParseValue(rt, text, pos);
    if name.Fail? {
      return Fail(name.error);
    }
    if !name.value.JString? {
      return Fail(NamesMustBeStrings);
    }
    var separator := ScanSeparator(text, name.pos);
    if separator.Fail? {
      return Fail(separator.error);
    }
    var value := ParseValue(rt, text, separator.pos);
    if value.Fail? {
      return Fail(value.error);
    }
    return Done(Entry(name.value.text, value.value), value.pos);
  }

  method ParseObjectBody(rt: Runtime, text: Text, start: nat) returns (r: Parse<JsonValue>)
    ensures r == ReadObject(rt, text, start)
    decreases |text| - start, 3
  {
    var clean := ScanClean(text, start);
    if clean.Fail? {
      return Fail(clean.error);
    }
    if clean.value == CLOSE_BRACE {
      return Done(JObject([]), clean.pos + 1);
    }
    r := ParseMembers(rt, text, clean.pos);
  }

  method ParseMembers(rt: Runtime, text: Text, start: nat) returns (r: Parse<JsonValue>)
    ensures r == Members(rt, text, start, [])
    decreases |text| - start, 2
  {
    hide NextClean, Member, Assign;
    var out: seq<Entry> := [];
    var pos := start;
    while true
      invariant start == pos || (start < pos && start < |text|)
      invariant Members(rt, text, pos, out) == Members(rt, text, start, [])
      decreases |text| - pos
    {
      var member := ParseMember(rt, text, pos);
      if member.Fail? {
        return Fail(member.error);
      }
      out := Assign(out, member.value.key, member.value.value);
      var after := ScanClean(text, member.pos);
      if after.Fail? {
        return Fail(after.error);
      }
      if after.value == CLOSE_BRACE {
        return Done(JObject(out), after.pos + 1);
      }
      if !SeparatesItem(after.value) {
        return Fail(UnterminatedObject);
      }
      pos := after.pos + 1;
    }
  }

  method ParseItems(rt: Runtime, text: Text, start: nat) returns (r: Parse<JsonValue>)
    ensures r == Items(rt, text, start, [], false)
    decreases |text| - start, 1
  {
    hide NextClean, NextValue;
    var out: seq<JsonValue> := [];
    var trailing := false;
    var pos := start;
    while true
      invariant start <= pos
      invariant Items(rt, text, pos, out, trailing) == Items(rt, text, start, [], false)
      decreases |text| - pos
    {
      var clean := ScanClean(text, pos);
      if clean.Fail? {
        return Fail(clean.error);
      }
      if clean.value == END {
        return Fail(UnterminatedArray);
      }
      if clean.value == CLOSE_BRACKET {
        if trailing {
          out := out + [JNull];
        }
        return Done(JArray(out), clean.pos + 1);
      }
      if clean.value == COMMA || clean.value == SEMICOLON {
        out := out + [JNull];
        trailing := true;
        pos := clean.pos + 1;
        continue;
      }
      var value := ParseValue(rt, text, clean.pos);
      if value.Fail? {
        return Fail(value.error);
      }
      out := out + [value.value];
      var after := ScanClean(text, value.pos);
      if after.Fail? {
        return Fail(after.error);
      }
      if after.value == CLOSE_BRACKET {
        return Done(JArray(out), after.pos + 1);
      }
      if !SeparatesItem(after.value) {
        return Fail(UnterminatedArray);
      }
      trailing := true;
      pos := after.pos + 1;
    }
  }

  /** The whole text as an object; what follows the object is ignored. */
  function ParseObject(rt: Runtime, dpString: Text): (r: Parse<JsonValue>)
    ensures r.Done? ==> r.value.JObject?
  {
    var text := if dpString != [] && dpString[0] == BYTE_ORDER_MARK then dpString[1..] else dpString;
    match NextValue(rt, text, 0)
    case Fail(error) => Fail(error)
    case Done(value, pos) => if value.JObject? then Done(value, pos) else Fail(ObjectExpected)
  }

  method ParseOrgJsonObject(rt: Runtime, dpString: Text) returns (r: Parse<JsonValue>)
    ensures r == ParseObject(rt, dpString)
  {
    var text := if dpString != [] && dpString[0] == BYTE_ORDER_MARK then dpString[1..] else dpString;
    r := ParseValue(rt, text, 0);
    if r.Done? && !r.value.JObject? {
      r := Fail(ObjectExpected);
    }
  }
}
