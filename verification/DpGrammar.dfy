/** The tokens the lenient parser reads, written out from what they mean: every kind of white space,
    comment, string and word, and that each is read as what it was written from. */
module DpGrammar {
  import opened Options
  import opened JsonText
  import opened DpString
  import opened DpPrinter

  // ------------------------------------------------------------------------------------------
  // White space and comments
  // ------------------------------------------------------------------------------------------

  datatype Filler =
    | Space(c: CodePoint)
    | Block(body: Text)
    | Line(hash: bool, body: Text, ending: CodePoint)

  type Gap = seq<Filler>

  predicate LawfulFiller(f: Filler) {
    match f
    case Space(c) => c in {0x09, 0x0A, 0x0D, 0x20}
    case Block(body) => forall i :: 0 <= i < |body| - 1 ==> !(body[i] == 0x2A && body[i + 1] == 0x2F)
    case Line(_, body, ending) =>
      ending in {0x0A, 0x0D} && forall i :: 0 <= i < |body| ==> body[i] !in {0x0A, 0x0D}
  }

  predicate LawfulGap(gap: Gap) {
    forall i :: 0 <= i < |gap| ==> LawfulFiller(gap[i])
  }

  function FillerText(f: Filler): (s: Text)
    ensures s != []
  {
    match f
    case Space(c) => [c]
    case Block(body) => [0x2F, 0x2A] + (body + [0x2A, 0x2F])
    case Line(hash, body, ending) => (if hash then [0x23] else [0x2F, 0x2F]) + (body + [ending])
  }

  function GapText(gap: Gap): Text {
    if gap == [] then [] else FillerText(gap[0]) + GapText(gap[1..])
  }

  lemma {:induction false} CommentEnds(text: Text, pos: nat, body: Text)
    requires Stands(text, pos, body + [0x2A, 0x2F])
    requires forall i :: 0 <= i < |body| - 1 ==> !(body[i] == 0x2A && body[i + 1] == 0x2F)
    ensures FindCommentEnd(text, pos) == Some(pos + |body|)
    decreases |body|
  {
    var whole := body + [0x2A, 0x2F];
    assert text[pos] == text[pos..pos + |whole|][0] == whole[0];
    assert text[pos + 1] == text[pos..pos + |whole|][1] == whole[1];
    if body != [] {
      assert whole == [body[0]] + (body[1..] + [0x2A, 0x2F]);
      StandsSplit(text, pos, [body[0]], body[1..] + [0x2A, 0x2F]);
      CommentEnds(text, pos + 1, body[1..]);
    }
  }

  lemma {:induction false} LineEnds(text: Text, pos: nat, body: Text, ending: CodePoint)
    requires Stands(text, pos, body + [ending]) && ending in {0x0A, 0x0D}
    requires forall i :: 0 <= i < |body| ==> body[i] !in {0x0A, 0x0D}
    ensures SkipLine(text, pos) == pos + |body| + 1
    decreases |body|
  {
    var whole := body + [ending];
    assert text[pos] == text[pos..pos + |whole|][0] == whole[0];
    if body != [] {
      assert whole == [body[0]] + (body[1..] + [ending]);
      StandsSplit(text, pos, [body[0]], body[1..] + [ending]);
      LineEnds(text, pos + 1, body[1..], ending);
    }
  }

  lemma FillerSkipped(text: Text, pos: nat, f: Filler)
    requires LawfulFiller(f) && Stands(text, pos, FillerText(f))
    ensures NextClean(text, pos) == NextClean(text, pos + |FillerText(f)|)
  {
    var s := FillerText(f);
    assert text[pos] == text[pos..pos + |s|][0] == s[0];
    match f
    case Space(_) =>
    case Block(body) =>
      assert text[pos + 1] == text[pos..pos + |s|][1] == s[1];
      StandsSplit(text, pos, [0x2F, 0x2A], body + [0x2A, 0x2F]);
      CommentEnds(text, pos + 2, body);
    case Line(hash, body, ending) =>
      assert !hash ==> text[pos + 1] == text[pos..pos + |s|][1] == s[1];
      StandsSplit(text, pos, if hash then [0x23] else [0x2F, 0x2F], body + [ending]);
      LineEnds(text, pos + if hash then 1 else 2, body, ending);
  }

  /** The scanner passes over every gap. */
  lemma {:induction false} GapSkipped(text: Text, pos: nat, gap: Gap)
    requires LawfulGap(gap) && Stands(text, pos, GapText(gap))
    ensures NextClean(text, pos) == NextClean(text, pos + |GapText(gap)|)
    decreases |gap|
  {
    hide NextClean, Stands, FillerText;
    if gap != [] {
      StandsSplit(text, pos, FillerText(gap[0]), GapText(gap[1..]));
      FillerSkipped(text, pos, gap[0]);
      GapSkipped(text, pos + |FillerText(gap[0])|, gap[1..]);
    }
  }

  // ------------------------------------------------------------------------------------------
  // Strings
  // ------------------------------------------------------------------------------------------

  /** What a string is written from: characters, the named escapes, a character escaped as itself,
      and four hexadecimal digits. */
  datatype Piece =
    | Char(c: CodePoint)
    | Tab | Backspace | LineFeed | Return | FormFeed
    | Itself(c: CodePoint)
    | Unicode(hex: Text)

  predicate LawfulPiece(quote: CodePoint, p: Piece) {
    match p
    case Char(c) => c != quote && c != 0x5C
    case Itself(c) => c !in {0x74, 0x62, 0x6E, 0x72, 0x66, 0x75}
    case Unicode(hex) => |hex| == 4 && AllDigits(hex, 16)
    case _ => true
  }

  function PieceText(p: Piece): (s: Text)
    ensures s != []
  {
    match p
    case Char(c) => [c]
    case Tab => [0x5C, 0x74]
    case Backspace => [0x5C, 0x62]
    case LineFeed => [0x5C, 0x6E]
    case Return => [0x5C, 0x72]
    case FormFeed => [0x5C, 0x66]
    case Itself(c) => [0x5C, c]
    case Unicode(hex) => [0x5C, 0x75] + hex
  }

  lemma HexValue(hex: Text)
    requires |hex| == 4 && AllDigits(hex, 16)
    ensures DigitsValue(hex, 16) == DigitValue(hex[0]) * 4096 + DigitValue(hex[1]) * 256
                                    + DigitValue(hex[2]) * 16 + DigitValue(hex[3])
    ensures DigitsValue(hex, 16) < 0x1_0000
  {
    var a, b, c := hex[..3], hex[..2], hex[..1];
    assert a[..2] == b && b[..1] == c && c[..0] == [];
    assert DigitsValue(c, 16) == DigitsValue(c[..0], 16) * 16 + DigitValue(hex[0]);
    assert DigitsValue(b, 16) == DigitsValue(b[..1], 16) * 16 + DigitValue(hex[1]);
    assert DigitsValue(a, 16) == DigitsValue(a[..2], 16) * 16 + DigitValue(hex[2]);
    assert DigitsValue(hex, 16) == DigitsValue(hex[..3], 16) * 16 + DigitValue(hex[3]);
  }

  function PieceValue(p: Piece): CodePoint {
    match p
    case Char(c) => c
    case Tab => 0x09
    case Backspace => 0x08
    case LineFeed => 0x0A
    case Return => 0x0D
    case FormFeed => 0x0C
    case Itself(c) => c
    case Unicode(hex) =>
      if |hex| == 4 && AllDigits(hex, 16) then
        HexValue(hex);
        DigitsValue(hex, 16)
      else 0
  }

  function PiecesText(pieces: seq<Piece>): Text {
    if pieces == [] then [] else PieceText(pieces[0]) + PiecesText(pieces[1..])
  }

  function PiecesValue(pieces: seq<Piece>): Text {
    if pieces == [] then [] else [PieceValue(pieces[0])] + PiecesValue(pieces[1..])
  }

  predicate LawfulPieces(quote: CodePoint, pieces: seq<Piece>) {
    quote in {0x22, 0x27} && forall i :: 0 <= i < |pieces| ==> LawfulPiece(quote, pieces[i])
  }

  lemma PieceRead(
    rt: Runtime, text: Text, pos: nat, quote: CodePoint, p: Piece, read: Text)
    requires quote in {0x22, 0x27} && LawfulPiece(quote, p) && Stands(text, pos, PieceText(p))
    ensures StringBody(rt, text, pos, quote, read)
         == StringBody(rt, text, pos + |PieceText(p)|, quote, read + [PieceValue(p)])
  {
    var s := PieceText(p);
    assert text[pos] == text[pos..pos + |s|][0] == s[0];
    if !p.Char? {
      assert text[pos + 1] == text[pos..pos + |s|][1] == s[1];
      if p.Unicode? {
        StandsSplit(text, pos, [0x5C, 0x75], p.hex);
        HexValue(p.hex);
        hide DigitsValue;
        assert ReadEscape(rt, text, pos + 1) == Done(PieceValue(p), pos + 6);
      } else {
        assert ReadEscape(rt, text, pos + 1) == Done(PieceValue(p), pos + 2);
      }
    }
  }

  lemma {:induction false} PiecesRead(
    rt: Runtime, text: Text, pos: nat, quote: CodePoint, pieces: seq<Piece>, read: Text)
    requires LawfulPieces(quote, pieces) && Stands(text, pos, PiecesText(pieces) + [quote])
    ensures StringBody(rt, text, pos, quote, read)
         == Done(read + PiecesValue(pieces), pos + |PiecesText(pieces)| + 1)
    decreases |pieces|
  {
    hide Stands, PieceText, PieceValue, LawfulPiece;
    if pieces == [] {
      assert PiecesText(pieces) + [quote] == [quote];
      StandsCharacter(text, pos, quote);
      assert read + [] == read;
    } else {
      hide StringBody;
      var first, rest := PieceText(pieces[0]), PiecesText(pieces[1..]) + [quote];
      assert PiecesText(pieces) + [quote] == first + rest;
      StandsSplit(text, pos, first, rest);
      PieceRead(rt, text, pos, quote, pieces[0], read);
      PiecesRead(rt, text, pos + |first|, quote, pieces[1..], read + [PieceValue(pieces[0])]);
      assert read + [PieceValue(pieces[0])] + PiecesValue(pieces[1..])
          == read + PiecesValue(pieces);
    }
  }

  // ------------------------------------------------------------------------------------------
  // Words
  // ------------------------------------------------------------------------------------------

  datatype Keyword = Null | True | False

  /** An unquoted word: null, true or false in any mixture of cases; a number, decimal, octal after a
      leading zero, or hexadecimal after 0x; or anything else. */
  datatype Token =
    | Word(keyword: Keyword, upper: seq<bool>)
    | Number(prefix: Text, sign: Text, body: Text, base: nat, value: int)
    | Other(text: Text)

  function Spelling(k: Keyword): Text {
    match k
    case Null => [0x6E, 0x75, 0x6C, 0x6C]
    case True => [0x74, 0x72, 0x75, 0x65]
    case False => [0x66, 0x61, 0x6C, 0x73, 0x65]
  }

  function Cased(k: Keyword, upper: seq<bool>): Text {
    var s := Spelling(k);
    seq(|s|, i requires 0 <= i < |s| => if i < |upper| && upper[i] then s[i] - 0x20 else s[i])
  }

  predicate LawfulNumber(prefix: Text, sign: Text, body: Text, base: nat, value: int) {
    && Spells(sign, body, base, value) && -0x8000_0000_0000_0000 <= value < 0x8000_0000_0000_0000
    && ((base == 16 && prefix in {[0x30, 0x78], [0x30, 0x58]})
        || (base == 8 && prefix == [0x30])
        || (base == 10 && prefix == [] && (sign == [] && |body| > 1 ==> body[0] != 0x30)))
  }

  ghost predicate IsNumber(s: Text) {
    exists prefix: Text, sign: Text, body: Text, base: nat, value: int ::
      s == prefix + sign + body && LawfulNumber(prefix, sign, body, base, value)
  }

  function TokenText(t: Token): Text {
    match t
    case Word(k, upper) => Cased(k, upper)
    case Number(prefix, sign, body, _, _) => prefix + sign + body
    case Other(text) => text
  }

  ghost predicate LawfulToken(t: Token) {
    match t
    case Word(_, _) => true
    case Number(prefix, sign, body, base, value) => LawfulNumber(prefix, sign, body, base, value)
    case Other(text) =>
      && text != [] && text[0] !in {0x22, 0x27}
      && (forall i :: 0 <= i < |text| ==> !EndsLiteral(text[i]))
      && (forall k, upper :: text != Cased(k, upper))
      && (0x2E in text || !IsNumber(text))
  }

  function TokenValue(rt: Runtime, t: Token): JsonValue {
    match t
    case Word(k, _) => (match k case Null => JNull case True => JBool(true) case False => JBool(false))
    case Number(_, _, _, _, value) => JLong(value)
    case Other(text) => if rt.isDouble(text) then JDouble(text) else JString(text)
  }

  lemma CasedIs(k: Keyword, upper: seq<bool>)
    ensures var s := Cased(k, upper);
            && (SameWord(s, NULL_WORD) <==> k == Null)
            && (SameWord(s, TRUE_WORD) <==> k == True)
            && (SameWord(s, FALSE_WORD) <==> k == False)
            && forall i :: 0 <= i < |s| ==> !EndsLiteral(s[i]) && s[i] !in {0x22, 0x27}
  {
    var s := Cased(k, upper);
    assert s[0] in {0x6E, 0x4E, 0x74, 0x54, 0x66, 0x46};
  }

  lemma SameWordCased(s: Text, k: Keyword)
    requires SameWord(s, Spelling(k))
    ensures exists upper :: s == Cased(k, upper)
  {
    var upper := seq(|s|, i requires 0 <= i < |s| => s[i] != Spelling(k)[i]);
    assert s == Cased(k, upper);
  }

  /** Where the digits of a number begin, and in which base. */
  lemma NumberBaseIs(prefix: Text, sign: Text, body: Text, base: nat, value: int)
    requires LawfulNumber(prefix, sign, body, base, value)
    ensures NumberBase(prefix + sign + body) == (sign + body, base)
  {
    hide Spells, AllDigits, DigitsValue;
    assert body != [] && DigitValue(body[0]) < base && sign in {[], [PLUS], [MINUS]} by {
      SpelledParts(sign, body, base, value);
    }
    var s := prefix + sign + body;
    assert s == prefix + (sign + body);
    if base == 16 {
      assert s[2..] == sign + body;
    } else if base == 8 {
      assert s[1..] == sign + body;
    } else {
      assert prefix + sign == sign;
      assert sign == [] ==> s == body;
    }
  }

  lemma SpelledParts(sign: Text, body: Text, base: nat, value: int)
    requires Spells(sign, body, base, value)
    ensures sign in {[], [PLUS], [MINUS]} && body != [] && AllDigits(body, base)
    ensures DigitValue(body[0]) < base
  {
  }

  lemma NumberCharacters(prefix: Text, sign: Text, body: Text, base: nat, value: int)
    requires LawfulNumber(prefix, sign, body, base, value)
    ensures var s := prefix + sign + body;
            && s != [] && (DigitValue(s[0]) < 10 || s[0] in {PLUS, MINUS})
            && forall i :: 0 <= i < |s| ==>
                 !EndsLiteral(s[i]) && s[i] !in {0x22, 0x27} && s[i] != DOT
  {
    hide DigitsValue;
    var s := prefix + sign + body;
    SpelledParts(sign, body, base, value);
    forall i | 0 <= i < |s| ensures DigitValue(s[i]) < 36 || s[i] in {PLUS, MINUS} {
      if i >= |prefix| + |sign| {
        assert s[i] == body[i - |prefix| - |sign|];
      }
    }
  }

  /** Every word means what it was written from. */
  lemma TokenClassified(rt: Runtime, t: Token)
    requires LawfulToken(t)
    ensures Classify(rt, TokenText(t)) == TokenValue(rt, t)
  {
    hide NumberBase, ParseLong;
    match t
    case Word(k, upper) => CasedIs(k, upper);
    case Number(prefix, sign, body, base, value) =>
      NumberBaseIs(prefix, sign, body, base, value);
      NumberCharacters(prefix, sign, body, base, value);
      SpelledParses(sign, body, base, value);
    case Other(text) => OtherClassified(rt, text);
  }

  lemma OtherClassified(rt: Runtime, text: Text)
    requires LawfulToken(Other(text))
    ensures Classify(rt, text) == if rt.isDouble(text) then JDouble(text) else JString(text)
  {
    hide ParseLong, NumberBase;
    if SameWord(text, NULL_WORD) { SameWordCased(text, Null); }
    if SameWord(text, TRUE_WORD) { SameWordCased(text, True); }
    if SameWord(text, FALSE_WORD) { SameWordCased(text, False); }
    var (number, base) := NumberBase(text);
    if DOT !in text && ParseLong(number, base).Some? {
      ReadNumberIsLawful(text);
      assert false;
    }
  }

  /** A word that is read as a number was written as one. */
  lemma ReadNumberIsLawful(text: Text)
    requires var (number, base) := NumberBase(text); ParseLong(number, base).Some?
    ensures IsNumber(text)
  {
    hide ParseLong, Spells;
    var (number, base) := NumberBase(text);
    var value := ParseLong(number, base).value;
    ParsesLongIff(number, base, value);
    var sign: Text, body: Text :| number == sign + body && Spells(sign, body, base, value);
    SpelledParts(sign, body, base, value);
    var prefix := PrefixOf(text);
    assert text == prefix + (sign + body);
    hide NumberBase;
    assert text == prefix + sign + body;
    assert LawfulNumber(prefix, sign, body, base, value);
  }

  /** What stands before the digits. */
  lemma PrefixOf(text: Text) returns (prefix: Text)
    requires NumberBase(text).0 != []
    ensures var (number, base) := NumberBase(text);
            && text == prefix + number
            && ((base == 16 && prefix in {[0x30, 0x78], [0x30, 0x58]})
                || (base == 8 && prefix == [0x30])
                || (base == 10 && prefix == [] && (|number| > 1 ==> number[0] != 0x30)))
  {
    var (number, base) := NumberBase(text);
    if base == 16 {
      prefix := [text[0], text[1]];
    } else if base == 8 {
      prefix := [text[0]];
    } else {
      prefix := [];
    }
    assert text == prefix + number;
  }
}
