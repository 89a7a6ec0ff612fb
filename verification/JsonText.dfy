/** Text as the lenient parser sees it, the values it produces, and numbers as text. Text is a
    sequence of code points, since an escape can produce a lone surrogate. */
module JsonText {
  import opened Options

  type CodePoint = c: int | 0 <= c < 0x11_0000
  type Text = seq<CodePoint>

  const TAB: CodePoint := 0x09
  const LF: CodePoint := 0x0A
  const FF: CodePoint := 0x0C
  const CR: CodePoint := 0x0D
  const BLANK: CodePoint := 0x20
  const QUOTE: CodePoint := 0x22
  const HASH: CodePoint := 0x23
  const APOSTROPHE: CodePoint := 0x27
  const STAR: CodePoint := 0x2A
  const PLUS: CodePoint := 0x2B
  const COMMA: CodePoint := 0x2C
  const MINUS: CodePoint := 0x2D
  const DOT: CodePoint := 0x2E
  const SLASH: CodePoint := 0x2F
  const ZERO: CodePoint := 0x30
  const COLON: CodePoint := 0x3A
  const SEMICOLON: CodePoint := 0x3B
  const EQUALS: CodePoint := 0x3D
  const GREATER: CodePoint := 0x3E
  const OPEN_BRACKET: CodePoint := 0x5B
  const BACKSLASH: CodePoint := 0x5C
  const CLOSE_BRACKET: CodePoint := 0x5D
  const OPEN_BRACE: CodePoint := 0x7B
  const CLOSE_BRACE: CodePoint := 0x7D
  const BYTE_ORDER_MARK: CodePoint := 0xFEFF

  const NULL_WORD: Text := [0x6E, 0x75, 0x6C, 0x6C]
  const TRUE_WORD: Text := [0x74, 0x72, 0x75, 0x65]
  const FALSE_WORD: Text := [0x66, 0x61, 0x6C, 0x73, 0x65]

  /** The values of the parser. A double keeps its token, its numeric value is not modelled. An
      object keeps its entries in insertion order, with one entry for a key. */
  datatype JsonValue =
    | JNull
    | JBool(flag: bool)
    | JLong(number: int)
    | JDouble(token: Text)
    | JString(text: Text)
    | JObject(entries: seq<Entry>)
    | JArray(items: seq<JsonValue>)

  datatype Entry = Entry(key: Text, value: JsonValue)

  /** What the language runtime decides: which tokens read as floating-point numbers, and what the
      four characters of a unicode escape that are not plain hexadecimal digits stand for. */
  datatype Runtime = Runtime(isDouble: Text -> bool, laxEscape: Text -> Option<CodePoint>)

  // ------------------------------------------------------------------------------------------
  // Dictionaries
  // ------------------------------------------------------------------------------------------

  /** Assignment to a key: in place when the key is there, at the end when it is new. */
  function Assign(entries: seq<Entry>, key: Text, value: JsonValue): (r: seq<Entry>)
    ensures |entries| <= |r| <= |entries| + 1
    ensures forall i :: 0 <= i < |entries| ==> r[i].key == entries[i].key
    ensures forall i :: 0 <= i < |entries| ==>
              r[i].value == entries[i].value || (entries[i].key == key && r[i].value == value)
    ensures (forall i :: 0 <= i < |entries| ==> entries[i].key != key)
            ==> r == entries + [Entry(key, value)]
  {
    if entries == [] then [Entry(key, value)]
    else if entries[0].key == key then [Entry(key, value)] + entries[1..]
    else [entries[0]] + Assign(entries[1..], key, value)
  }

  /** The value of a key, if it is there. */
  function Found(entries: seq<Entry>, key: Text): Option<JsonValue> {
    if entries == [] then None
    else if entries[|entries| - 1].key == key then Some(entries[|entries| - 1].value)
    else Found(entries[..|entries| - 1], key)
  }

  predicate DistinctKeys(entries: seq<Entry>) {
    forall i, j :: 0 <= i < j < |entries| ==> entries[i].key != entries[j].key
  }

  lemma {:induction false} FoundFirst(entries: seq<Entry>, key: Text)
    requires entries != [] && DistinctKeys(entries)
    ensures Found(entries, key)
         == if entries[0].key == key then Some(entries[0].value) else Found(entries[1..], key)
  {
    var n := |entries| - 1;
    if n == 0 {
      assert entries[..0] == [] == entries[1..];
    } else {
      FoundFirst(entries[..n], key);
      assert entries[..n][1..] == entries[1..][..n - 1];
      assert entries[1..][n - 1] == entries[n];
    }
  }

  /** An assignment is what is found under its key afterwards, under every other key there is what was
      there before, and no key is there twice. */
  lemma {:induction false} AssignedReadsBack(
    entries: seq<Entry>, key: Text, value: JsonValue, other: Text)
    requires DistinctKeys(entries)
    ensures var after := Assign(entries, key, value);
            && DistinctKeys(after)
            && Found(after, other) == if other == key then Some(value) else Found(entries, other)
  {
    var after := Assign(entries, key, value);
    if entries == [] {
      assert after[..0] == [];
    } else {
      var rest := entries[1..];
      AssignedReadsBack(rest, key, value, other);
      FoundFirst(entries, other);
      if entries[0].key == key {
        assert after[1..] == rest;
      } else {
        assert after[1..] == Assign(rest, key, value);
        AssignedKeys(rest, key, value);
      }
      assert DistinctKeys(after) by {
        forall i, j | 0 <= i < j < |after| ensures after[i].key != after[j].key {
          assert after[j] == after[1..][j - 1];
          assert i > 0 ==> after[i] == after[1..][i - 1];
          if i == 0 && entries[0].key == key {
            assert entries[j].key != entries[0].key;
          }
        }
      }
      FoundFirst(after, other);
    }
  }

  lemma {:induction false} AssignedKeys(entries: seq<Entry>, key: Text, value: JsonValue)
    ensures forall i :: 0 <= i < |Assign(entries, key, value)| ==>
              Assign(entries, key, value)[i].key == key
              || (i < |entries| && Assign(entries, key, value)[i].key == entries[i].key)
  {
    if entries != [] && entries[0].key != key {
      AssignedKeys(entries[1..], key, value);
    }
  }

  // ------------------------------------------------------------------------------------------
  // Numbers as text
  // ------------------------------------------------------------------------------------------

  const LONG_MIN: int := -0x8000_0000_0000_0000
  const LONG_MAX: int := 0x7FFF_FFFF_FFFF_FFFF

  predicate IsLong(n: int) {
    LONG_MIN <= n <= LONG_MAX
  }

  /** The value of a digit in any base up to 36, or 36 for every other character. */
  function DigitValue(c: CodePoint): (d: nat)
    ensures d <= 36
  {
    if 0x30 <= c <= 0x39 then c - 0x30
    else if 0x61 <= c <= 0x7A then c - 0x61 + 10
    else if 0x41 <= c <= 0x5A then c - 0x41 + 10
    else 36
  }

  predicate AllDigits(s: Text, base: nat) {
    forall i :: 0 <= i < |s| ==> DigitValue(s[i]) < base
  }

  function DigitsValue(s: Text, base: nat): nat {
    if s == [] then 0 else DigitsValue(s[..|s| - 1], base) * base + DigitValue(s[|s| - 1])
  }

  function ParseLong(number: Text, base: nat): (r: Option<int>)
    ensures r.Some? ==> IsLong(r.value)
  {
    var signed := number != [] && number[0] in {PLUS, MINUS};
    var body := if signed then number[1..] else number;
    if body == [] || !AllDigits(body, base) then None
    else
      var magnitude: int := DigitsValue(body, base);
      var value := if signed && number[0] == MINUS then -magnitude else magnitude;
      if IsLong(value) then Some(value) else None
  }

  /** An optional sign and digits of the base that spell a number. */
  predicate Spells(sign: Text, body: Text, base: nat, n: int) {
    && sign in {[], [PLUS], [MINUS]} && body != [] && AllDigits(body, base)
    && n == DigitsValue(body, base) * if sign == [MINUS] then -1 else 1
  }

  lemma SpelledParses(sign: Text, body: Text, base: nat, n: int)
    requires base <= 36 && Spells(sign, body, base, n)
    ensures ParseLong(sign + body, base) == if IsLong(n) then Some(n) else None
  {
    hide DigitsValue;
    var number := sign + body;
    assert DigitValue(body[0]) < base && body[0] !in {PLUS, MINUS};
    if sign != [] {
      assert number[0] == sign[0] && number[1..] == body;
    } else {
      assert number == body;
    }
  }

  /** A text is read as a number exactly if it is an optional sign and digits of the base, and the
      number they spell has 64 bits. */
  lemma ParsesLongIff(number: Text, base: nat, n: int)
    requires base <= 36
    ensures ParseLong(number, base) == Some(n)
        <==> IsLong(n)
             && exists sign: Text, body: Text ::
                  number == sign + body && Spells(sign, body, base, n)
  {
    hide DigitsValue;
    if ParseLong(number, base) == Some(n) {
      var signed := number[0] in {PLUS, MINUS};
      var sign, body := if signed then [number[0]] else [], if signed then number[1..] else number;
      assert number == sign + body;
      assert Spells(sign, body, base, n);
    }
    if sign: Text, body: Text :| number == sign + body && Spells(sign, body, base, n) {
      SpelledParses(sign, body, base, n);
    }
  }

  function Decimal(n: nat): (s: Text)
    ensures s != []
    ensures AllDigits(s, 10)
    ensures forall i :: 0 <= i < |s| ==> 0x30 <= s[i] <= 0x39
    ensures |s| > 1 ==> s[0] != ZERO
  {
    if n < 10 then [ZERO + n]
    else
      var upper := Decimal(n / 10);
      assert n / 10 < 10 ==> upper == [ZERO + n / 10];
      upper + [ZERO + n % 10]
  }

  lemma {:induction false} DecimalValue(n: nat)
    ensures DigitsValue(Decimal(n), 10) == n
  {
    if n < 10 {
      assert Decimal(n)[..0] == [];
    } else {
      DecimalValue(n / 10);
      var s := Decimal(n);
      assert s[..|s| - 1] == Decimal(n / 10);
    }
  }

  function IntText(n: int): (s: Text)
    ensures s != []
  {
    if n < 0 then [MINUS] + Decimal(-n) else Decimal(n)
  }

  lemma IntTextParses(n: int)
    ensures ParseLong(IntText(n), 10) == if IsLong(n) then Some(n) else None
  {
    DecimalValue(if n < 0 then -n else n);
    assert n < 0 ==> IntText(n)[1..] == Decimal(-n);
  }

  /** Two numbers with the same text are the same number. */
  lemma IntTextInjective(m: int, n: int)
    requires IntText(m) == IntText(n)
    ensures m == n
  {
    DecimalValue(if m < 0 then -m else m);
    DecimalValue(if n < 0 then -n else n);
    if m < 0 && n < 0 {
      assert IntText(m)[1..] == Decimal(-m) && IntText(n)[1..] == Decimal(-n);
    } else {
      assert IntText(m)[0] == IntText(n)[0];
    }
  }
}
