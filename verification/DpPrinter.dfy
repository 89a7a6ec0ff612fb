/** The hand-rolled printer of DP maps, which does not escape, and when parsing undoes it. */
module DpPrinter {
  import opened Bytes
  import opened JsonText
  import opened DpString

  /** The values the printer distinguishes. Numbers that are not integers and unknown objects come
      with the text the runtime prints for them. */
  datatype DpValue =
    | DpText(text: Text)
    | DpBool(flag: bool)
    | DpInt(number: int)
    | DpFloat(repr: Text)
    | DpBytes(content: bytes)
    | DpOther(repr: Text)

  datatype DpEntry = DpEntry(key: Text, value: DpValue)

  type DpMap = seq<DpEntry>

  ghost predicate IsDictionary(dps: DpMap) {
    forall i, j :: 0 <= i < j < |dps| ==> dps[i].key != dps[j].key
  }

  // ------------------------------------------------------------------------------------------
  // Printing
  // ------------------------------------------------------------------------------------------

  function Base64Digit(v: nat): (c: CodePoint)
    requires v < 64
    ensures c != QUOTE && c != BACKSLASH
  {
    if v < 26 then 0x41 + v
    else if v < 52 then 0x61 + (v - 26)
    else if v < 62 then 0x30 + (v - 52)
    else if v == 62 then PLUS
    else SLASH
  }

  /** The digits of three bytes. */
  function Group(a: nat, b: nat, c: nat): (r: Text)
    requires a < 256 && b < 256 && c < 256
    ensures Plain(r)
  {
    [Base64Digit(a / 4), Base64Digit(a % 4 * 16 + b / 16), Base64Digit(b % 16 * 4 + c / 64),
     Base64Digit(c % 64)]
  }

  function Base64(s: bytes): (r: Text)
    ensures Plain(r)
  {
    if s == [] then []
    else if |s| == 1 then Group(s[0] as nat, 0, 0)[..2] + [EQUALS, EQUALS]
    else if |s| == 2 then Group(s[0] as nat, s[1] as nat, 0)[..3] + [EQUALS]
    else Group(s[0] as nat, s[1] as nat, s[2] as nat) + Base64(s[3..])
  }

  function Quoted(s: Text): Text {
    [QUOTE] + s + [QUOTE]
  }

  function Rendered(v: DpValue): Text {
    match v
    case DpText(text) => Quoted(text)
    case DpBool(flag) => if flag then TRUE_WORD else FALSE_WORD
    case DpInt(number) => IntText(number)
    case DpFloat(repr) => repr
    case DpBytes(content) => Quoted(Base64(content))
    case DpOther(repr) => Quoted(repr)
  }

  function Pair(e: DpEntry): Text {
    Quoted(e.key) + [COLON] + Rendered(e.value)
  }

  function Pairs(dps: DpMap): Text {
    if dps == [] then []
    else if |dps| == 1 then Pair(dps[0])
    else Pair(dps[0]) + [COMMA] + Pairs(dps[1..])
  }

  function Serialized(dps: DpMap): Text {
    [OPEN_BRACE] + Pairs(dps) + [CLOSE_BRACE]
  }

  lemma {:induction false} PairsAppend(dps: DpMap, e: DpEntry)
    requires dps != []
    ensures Pairs(dps + [e]) == Pairs(dps) + [COMMA] + Pair(e)
  {
    var all := dps + [e];
    assert all[1..] == dps[1..] + [e];
    if |dps| > 1 {
      PairsAppend(dps[1..], e);
      var head, tail := Pair(dps[0]) + [COMMA], Pairs(dps[1..]);
      assert head + (tail + [COMMA] + Pair(e)) == head + tail + [COMMA] + Pair(e);
    } else {
      assert Pairs(all[1..]) == Pair(e);
    }
  }

  lemma PairAppended(out: Text, e: DpEntry)
    ensures out + [QUOTE] + e.key + [QUOTE, COLON] + Rendered(e.value) == out + Pair(e)
  {
  }

  method SerializeDps(dps: DpMap) returns (text: Text)
    ensures text == Serialized(dps)
  {
    hide Pairs, Pair, Rendered;
    var out: Text := [OPEN_BRACE];
    var first := true;
    PairsShort(dps);
    for i := 0 to |dps|
      invariant first == (i == 0)
      invariant out == [OPEN_BRACE] + Pairs(dps[..i])
    {
      assert dps[..i + 1] == dps[..i] + [dps[i]];
      if first {
        PairsShort(dps[..i + 1]);
        assert dps[..i] == [];
      } else {
        PairsAppend(dps[..i], dps[i]);
        out := out + [COMMA];
      }
      first := false;
      PairAppended(out, dps[i]);
      out := out + [QUOTE] + dps[i].key + [QUOTE, COLON] + Rendered(dps[i].value);
      assert out == [OPEN_BRACE] + Pairs(dps[..i + 1]);
    }
    assert dps[..|dps|] == dps;
    text := out + [CLOSE_BRACE];
  }

  lemma PairsShort(dps: DpMap)
    ensures Pairs(dps[..0]) == []
    ensures |dps| == 1 ==> Pairs(dps) == Pair(dps[0])
  {
  }

  // ------------------------------------------------------------------------------------------
  // What is read back
  // ------------------------------------------------------------------------------------------

  /** Text the printer can quote without escaping. */
  predicate Plain(s: Text) {
    QUOTE !in s && BACKSLASH !in s
  }

  /** The values that parsing gives back. */
  predicate Readable(v: DpValue) {
    match v
    case DpText(text) => Plain(text)
    case DpBool(_) => true
    case DpInt(number) => IsLong(number)
    case DpFloat(_) => false
    case DpBytes(_) => true
    case DpOther(repr) => Plain(repr)
  }

  /** The parsed form of a value: bytes come back as their base64 text, unknown objects as theirs. */
  function Image(v: DpValue): JsonValue
    requires !v.DpFloat?
  {
    match v
    case DpText(text) => JString(text)
    case DpBool(flag) => JBool(flag)
    case DpInt(number) => JLong(number)
    case DpBytes(content) => JString(Base64(content))
    case DpOther(repr) => JString(repr)
  }

  predicate ReadableMap(dps: DpMap) {
    forall i :: 0 <= i < |dps| ==> Plain(dps[i].key) && Readable(dps[i].value)
  }

  function ImageMap(dps: DpMap): (entries: seq<Entry>)
    requires forall i :: 0 <= i < |dps| ==> !dps[i].value.DpFloat?
    ensures |entries| == |dps|
  {
    seq(|dps|, i requires 0 <= i < |dps| => Entry(dps[i].key, Image(dps[i].value)))
  }

  /** The piece stands in the text at this place. */
  ghost predicate Stands(text: Text, pos: nat, piece: Text) {
    pos + |piece| <= |text| && text[pos..pos + |piece|] == piece
  }

  lemma StandsSplit(text: Text, pos: nat, a: Text, b: Text)
    requires Stands(text, pos, a + b)
    ensures Stands(text, pos, a) && Stands(text, pos + |a|, b)
  {
    var whole := text[pos..pos + |a + b|];
    assert whole[..|a|] == a && whole[|a|..] == b;
    assert text[pos..pos + |a|] == whole[..|a|];
    assert text[pos + |a|..pos + |a| + |b|] == whole[|a|..];
  }

  lemma StandsCharacter(text: Text, pos: nat, c: CodePoint)
    requires Stands(text, pos, [c])
    ensures pos < |text| && text[pos] == c
  {
    assert text[pos..pos + 1][0] == c;
  }

  lemma {:induction false} PlainBodyReads(rt: Runtime, text: Text, pos: nat, s: Text, read: Text)
    requires Plain(s) && Stands(text, pos, s + [QUOTE])
    ensures StringBody(rt, text, pos, QUOTE, read) == Done(read + s, pos + |s| + 1)
    decreases |s|
  {
    if s == [] {
      StandsCharacter(text, pos, QUOTE);
      assert read + s == read;
    } else {
      assert s + [QUOTE] == [s[0]] + (s[1..] + [QUOTE]);
      StandsSplit(text, pos, [s[0]], s[1..] + [QUOTE]);
      StandsCharacter(text, pos, s[0]);
      PlainBodyReads(rt, text, pos + 1, s[1..], read + [s[0]]);
      assert read + [s[0]] + s[1..] == read + s;
    }
  }

  lemma QuotedStarts(text: Text, pos: nat, s: Text)
    requires Stands(text, pos, Quoted(s))
    ensures pos < |text| && text[pos] == QUOTE && Stands(text, pos + 1, s + [QUOTE])
  {
    assert Quoted(s) == [QUOTE] + (s + [QUOTE]);
    StandsSplit(text, pos, [QUOTE], s + [QUOTE]);
    StandsCharacter(text, pos, QUOTE);
  }

  lemma QuotedReads(rt: Runtime, text: Text, pos: nat, s: Text)
    requires Plain(s) && Stands(text, pos, Quoted(s))
    ensures NextValue(rt, text, pos) == Done(JString(s), pos + |s| + 2)
  {
    QuotedStarts(text, pos, s);
    PlainBodyReads(rt, text, pos + 1, s, []);
    assert [] + s == s;
    assert NextClean(text, pos) == Done(QUOTE, pos);
  }

  // Tokens

  ghost predicate Token(token: Text) {
    && token != [] && token[0] != QUOTE && token[0] != APOSTROPHE
    && forall i :: 0 <= i < |token| ==> !EndsLiteral(token[i])
  }

  lemma {:induction false} TokenEnds(text: Text, pos: nat, token: Text)
    requires Stands(text, pos, token) && pos + |token| < |text| && EndsLiteral(text[pos + |token|])
    requires forall i :: 0 <= i < |token| ==> !EndsLiteral(token[i])
    ensures LiteralEnd(text, pos) == pos + |token|
    decreases |token|
  {
    if token != [] {
      assert [token[0]] + token[1..] == token;
      StandsSplit(text, pos, [token[0]], token[1..]);
      StandsCharacter(text, pos, token[0]);
      TokenEnds(text, pos + 1, token[1..]);
    }
  }

  lemma TokenReads(rt: Runtime, text: Text, pos: nat, token: Text)
    requires Token(token) && Stands(text, pos, token)
    requires pos + |token| < |text| && EndsLiteral(text[pos + |token|])
    ensures NextValue(rt, text, pos) == Done(Classify(rt, token), pos + |token|)
  {
    TokenEnds(text, pos, token);
    assert text[pos] == text[pos..pos + |token|][0] == token[0];
    assert NextClean(text, pos) == Done(token[0], pos);
  }

  lemma IntTextToken(n: int)
    ensures Token(IntText(n))
    ensures DOT !in IntText(n)
    ensures NumberBase(IntText(n)) == (IntText(n), 10)
    ensures IntText(n)[0] == MINUS || 0x30 <= IntText(n)[0] <= 0x39
  {
    var s := IntText(n);
    forall i | 0 <= i < |s| ensures s[i] == MINUS || 0x30 <= s[i] <= 0x39 {
      if n < 0 && i > 0 {
        assert s[i] == Decimal(-n)[i - 1];
      }
    }
  }

  /** An integer in the 64-bit range reads as itself, and every other integer as something else. */
  lemma IntTextClassified(rt: Runtime, n: int)
    ensures Classify(rt, IntText(n)) == JLong(n) <==> IsLong(n)
  {
    IntTextToken(n);
    IntTextParses(n);
    var s := IntText(n);
    assert !SameWord(s, NULL_WORD) && !SameWord(s, TRUE_WORD) && !SameWord(s, FALSE_WORD);
  }

  lemma QuotedValueReads(rt: Runtime, text: Text, pos: nat, v: DpValue, s: Text)
    requires Rendered(v) == Quoted(s) && Plain(s) && !v.DpFloat? && Image(v) == JString(s)
    requires Stands(text, pos, Rendered(v))
    ensures NextValue(rt, text, pos) == Done(Image(v), pos + |Rendered(v)|)
  {
    hide NextValue, Member, Members, ReadObject, Items, NextClean;
    QuotedReads(rt, text, pos, s);
  }

  lemma TokenValueReads(rt: Runtime, text: Text, pos: nat, v: DpValue)
    requires (v.DpBool? || v.DpInt?) && Readable(v) && Stands(text, pos, Rendered(v))
    requires pos + |Rendered(v)| < |text| && EndsLiteral(text[pos + |Rendered(v)|])
    ensures NextValue(rt, text, pos) == Done(Image(v), pos + |Rendered(v)|)
  {
    hide NextValue, Member, Members, ReadObject, Items, NextClean;
    if v.DpInt? {
      IntTextToken(v.number);
      IntTextClassified(rt, v.number);
    }
    TokenReads(rt, text, pos, Rendered(v));
  }

  /** A printed value, followed by a comma or a closing brace, reads as its image. */
  lemma ValueReads(rt: Runtime, text: Text, pos: nat, v: DpValue)
    requires Readable(v) && Stands(text, pos, Rendered(v))
    requires pos + |Rendered(v)| < |text| && EndsLiteral(text[pos + |Rendered(v)|])
    ensures NextValue(rt, text, pos) == Done(Image(v), pos + |Rendered(v)|)
  {
    hide NextValue, Member, Members, ReadObject, Items, NextClean;
    match v
    case DpText(s) => QuotedValueReads(rt, text, pos, v, s);
    case DpBytes(content) => QuotedValueReads(rt, text, pos, v, Base64(content));
    case DpOther(repr) => QuotedValueReads(rt, text, pos, v, repr);
    case DpBool(_) => TokenValueReads(rt, text, pos, v);
    case DpInt(_) => TokenValueReads(rt, text, pos, v);
  }

  /** The parts of a printed pair. */
  lemma PairLayout(text: Text, pos: nat, e: DpEntry)
    requires Stands(text, pos, Pair(e))
    ensures Stands(text, pos, Quoted(e.key))
    ensures var at := pos + |e.key| + 2;
            at < |text| && text[at] == COLON && Stands(text, at + 1, Rendered(e.value))
  {
    var at := pos + |e.key| + 2;
    assert Pair(e) == Quoted(e.key) + ([COLON] + Rendered(e.value));
    StandsSplit(text, pos, Quoted(e.key), [COLON] + Rendered(e.value));
    StandsSplit(text, at, [COLON], Rendered(e.value));
    StandsCharacter(text, at, COLON);
  }

  /** A printed value never starts with the second half of an arrow, except a float that does. */
  lemma RenderedStart(text: Text, pos: nat, v: DpValue)
    requires Stands(text, pos, Rendered(v)) && !v.DpFloat?
    ensures pos < |text| && text[pos] != GREATER
  {
    assert Rendered(v) != [] && Rendered(v)[0] != GREATER by {
      if v.DpInt? {
        IntTextToken(v.number);
      }
    }
    assert text[pos] == text[pos..pos + |Rendered(v)|][0];
  }

  lemma ColonSeparates(text: Text, at: nat)
    requires at + 1 < |text| && text[at] == COLON && text[at + 1] != GREATER
    ensures Separator(text, at) == Done((), at + 1)
  {
    assert NextClean(text, at) == Done(COLON, at);
  }

  lemma MemberStep(
    rt: Runtime, text: Text, pos: nat, name: Text, at: nat, from: nat, value: JsonValue, next: nat)
    requires NextValue(rt, text, pos) == Done(JString(name), at)
    requires Separator(text, at) == Done((), from)
    requires NextValue(rt, text, from) == Done(value, next)
    ensures Member(rt, text, pos) == Done(Entry(name, value), next)
  {
  }

  /** A printed pair with a plain key starts as a member: name, separator, then its value. */
  lemma KeyReads(rt: Runtime, text: Text, pos: nat, e: DpEntry)
    requires Plain(e.key) && !e.value.DpFloat? && Stands(text, pos, Pair(e))
    ensures NextValue(rt, text, pos) == Done(JString(e.key), pos + |e.key| + 2)
    ensures Separator(text, pos + |e.key| + 2) == Done((), pos + |e.key| + 3)
    ensures Stands(text, pos + |e.key| + 3, Rendered(e.value))
  {
    hide NextValue, Member, Members, ReadObject, Items, NextClean;
    PairLayout(text, pos, e);
    RenderedStart(text, pos + |e.key| + 3, e.value);
    ColonSeparates(text, pos + |e.key| + 2);
    QuotedReads(rt, text, pos, e.key);
  }

  lemma PairLength(e: DpEntry)
    ensures |Pair(e)| == |e.key| + 3 + |Rendered(e.value)|
  {
  }

  lemma MemberReads(rt: Runtime, text: Text, pos: nat, e: DpEntry)
    requires Plain(e.key) && Readable(e.value) && Stands(text, pos, Pair(e))
    requires pos + |Pair(e)| < |text| && EndsLiteral(text[pos + |Pair(e)|])
    ensures Member(rt, text, pos) == Done(Entry(e.key, Image(e.value)), pos + |Pair(e)|)
  {
    hide NextValue, Member, NextClean, Stands, Pair, Rendered, Image;
    var at := pos + |e.key| + 2;
    PairLength(e);
    KeyReads(rt, text, pos, e);
    ValueReads(rt, text, at + 1, e.value);
    MemberStep(rt, text, pos, e.key, at, at + 1, Image(e.value), pos + |Pair(e)|);
  }

  lemma CharacterNext(text: Text, pos: nat)
    requires pos < |text|
    requires !IsSpace(text[pos]) && text[pos] != SLASH && text[pos] != HASH
    ensures NextClean(text, pos) == Done(text[pos], pos)
  {
  }

  lemma LastMember(rt: Runtime, text: Text, pos: nat, entries: seq<Entry>, e: Entry, next: nat)
    requires Member(rt, text, pos) == Done(e, next)
    requires next < |text| && text[next] == CLOSE_BRACE
    ensures Members(rt, text, pos, entries)
         == Done(JObject(Assign(entries, e.key, e.value)), next + 1)
  {
    hide NextValue, Member, ReadObject, Items;
    CharacterNext(text, next);
  }

  lemma NextMember(rt: Runtime, text: Text, pos: nat, entries: seq<Entry>, e: Entry, next: nat)
    requires Member(rt, text, pos) == Done(e, next)
    requires next < |text| && text[next] == COMMA
    ensures Members(rt, text, pos, entries)
         == Members(rt, text, next + 1, Assign(entries, e.key, e.value))
  {
    hide NextValue, Member, ReadObject, Items, NextClean, Assign;
    CharacterNext(text, next);
  }

  lemma LastPairLayout(text: Text, pos: nat, e: DpEntry)
    requires Stands(text, pos, Pairs([e]) + [CLOSE_BRACE])
    ensures Stands(text, pos, Pair(e)) && |Pairs([e])| == |Pair(e)|
    ensures pos + |Pair(e)| < |text| && text[pos + |Pair(e)|] == CLOSE_BRACE
  {
    StandsSplit(text, pos, Pair(e), [CLOSE_BRACE]);
    StandsCharacter(text, pos + |Pair(e)|, CLOSE_BRACE);
  }

  lemma PairsSplit(e: DpEntry, dps: DpMap)
    requires dps != []
    ensures Pairs([e] + dps) == Pair(e) + [COMMA] + Pairs(dps)
    ensures Pairs([e] + dps) + [CLOSE_BRACE] == Pair(e) + ([COMMA] + (Pairs(dps) + [CLOSE_BRACE]))
  {
    hide Pair;
    assert ([e] + dps)[1..] == dps;
  }

  /** The first printed pair, and what comes after it. */
  lemma PairsLayout(text: Text, pos: nat, e: DpEntry, dps: DpMap)
    requires dps != [] && Stands(text, pos, Pairs([e] + dps) + [CLOSE_BRACE])
    ensures Stands(text, pos, Pair(e)) && |Pairs([e] + dps)| == |Pair(e)| + 1 + |Pairs(dps)|
    ensures pos + |Pair(e)| < |text| && text[pos + |Pair(e)|] == COMMA
    ensures Stands(text, pos + |Pair(e)| + 1, Pairs(dps) + [CLOSE_BRACE])
  {
    hide Pair, Pairs, Stands;
    PairsSplit(e, dps);
    StandsSplit(text, pos, Pair(e), [COMMA] + (Pairs(dps) + [CLOSE_BRACE]));
    StandsSplit(text, pos + |Pair(e)|, [COMMA], Pairs(dps) + [CLOSE_BRACE]);
    StandsCharacter(text, pos + |Pair(e)|, COMMA);
  }

  lemma ImageMapStep(dps: DpMap)
    requires dps != [] && forall i :: 0 <= i < |dps| ==> !dps[i].value.DpFloat?
    ensures ImageMap(dps)
         == [Entry(dps[0].key, Image(dps[0].value))] + ImageMap(dps[1..])
  {
  }

  lemma {:induction false} MembersRead(
    rt: Runtime, text: Text, pos: nat, dps: DpMap, entries: seq<Entry>)
    requires dps != [] && ReadableMap(dps) && IsDictionary(dps)
    requires forall i, j :: 0 <= i < |entries| && 0 <= j < |dps| ==>
               entries[i].key != dps[j].key
    requires Stands(text, pos, Pairs(dps) + [CLOSE_BRACE])
    ensures Members(rt, text, pos, entries)
         == Done(JObject(entries + ImageMap(dps)), pos + |Pairs(dps)| + 1)
    decreases |dps|
  {
    hide NextValue, Member, Members, NextClean, Stands, Pair, Image, ImageMap;
    var e, rest := dps[0], dps[1..];
    var entry, next := Entry(e.key, Image(e.value)), pos + |Pair(e)|;
    var extended := entries + [entry];
    ImageMapStep(dps);
    assert entries + ([entry] + ImageMap(rest)) == extended + ImageMap(rest);
    assert Assign(entries, entry.key, entry.value) == extended;
    assert dps == [e] + rest;
    if rest == [] {
      assert dps == [e];
      LastPairLayout(text, pos, e);
      MemberReads(rt, text, pos, e);
      LastMember(rt, text, pos, entries, entry, next);
      assert ImageMap(rest) == [];
      assert extended + ImageMap(rest) == extended;
    } else {
      PairsLayout(text, pos, e, rest);
      MemberReads(rt, text, pos, e);
      NextMember(rt, text, pos, entries, entry, next);
      MembersRead(rt, text, next + 1, rest, extended);
    }
  }

  lemma ObjectStarts(rt: Runtime, text: Text)
    requires |text| > 1 && text[0] == OPEN_BRACE && text[1] == QUOTE
    ensures NextValue(rt, text, 0) == Members(rt, text, 1, [])
  {
    assert NextClean(text, 0) == Done(OPEN_BRACE, 0);
    assert NextClean(text, 1) == Done(QUOTE, 1);
    assert ReadObject(rt, text, 1) == Members(rt, text, 1, []);
  }

  lemma EmptyObject(rt: Runtime, text: Text)
    requires text == [OPEN_BRACE, CLOSE_BRACE]
    ensures NextValue(rt, text, 0) == Done(JObject([]), 2)
  {
    assert NextClean(text, 0) == Done(OPEN_BRACE, 0);
    assert NextClean(text, 1) == Done(CLOSE_BRACE, 1);
  }

  lemma FirstPairLayout(text: Text, pos: nat, dps: DpMap)
    requires dps != [] && Stands(text, pos, Pairs(dps) + [CLOSE_BRACE])
    ensures Stands(text, pos, Pair(dps[0]))
  {
    assert dps == [dps[0]] + dps[1..];
    if |dps| == 1 {
      assert dps == [dps[0]];
      LastPairLayout(text, pos, dps[0]);
    } else {
      PairsLayout(text, pos, dps[0], dps[1..]);
    }
  }

  lemma SerializedLayout(dps: DpMap)
    requires dps != []
    ensures var text := Serialized(dps);
            && |text| > 1 && text[0] == OPEN_BRACE && text[1] == QUOTE
            && Stands(text, 1, Pairs(dps) + [CLOSE_BRACE])
            && Stands(text, 1, Pair(dps[0]))
  {
    hide Pairs, Pair;
    var text := Serialized(dps);
    assert text == [OPEN_BRACE] + (Pairs(dps) + [CLOSE_BRACE]);
    StandsSplit(text, 0, [OPEN_BRACE], Pairs(dps) + [CLOSE_BRACE]);
    FirstPairLayout(text, 1, dps);
    PairLayout(text, 1, dps[0]);
    QuotedStarts(text, 1, dps[0].key);
  }

  /** What the whole parse of a printed map is. */
  lemma SerializedParses(rt: Runtime, dps: DpMap)
    requires dps != []
    ensures ParseObject(rt, Serialized(dps)) == Members(rt, Serialized(dps), 1, [])
  {
    hide NextValue, Member, Members, ReadObject, Items, NextClean;
    SerializedLayout(dps);
    ObjectStarts(rt, Serialized(dps));
  }

  /** Parsing undoes printing: every map whose keys and strings contain no quote and no backslash
      and whose numbers are 64-bit integers comes back entry by entry, in order. */
  lemma ParseUndoesPrint(rt: Runtime, dps: DpMap)
    requires IsDictionary(dps) && ReadableMap(dps)
    ensures ParseObject(rt, Serialized(dps))
         == Done(JObject(ImageMap(dps)), |Serialized(dps)|)
  {
    hide NextValue, Member, Members, ReadObject, Items, NextClean;
    if dps == [] {
      EmptyObject(rt, Serialized(dps));
    } else {
      SerializedLayout(dps);
      SerializedParses(rt, dps);
      MembersRead(rt, Serialized(dps), 1, dps, []);
      assert [] + ImageMap(dps) == ImageMap(dps);
    }
  }

  // ------------------------------------------------------------------------------------------
  // Bytes as base64 text
  // ------------------------------------------------------------------------------------------

  /** The six bits a character of base64 stands for. */
  function Sextet(c: CodePoint): (v: nat)
    ensures v < 64
  {
    if 0x41 <= c <= 0x5A then c - 0x41
    else if 0x61 <= c <= 0x7A then c - 0x61 + 26
    else if 0x30 <= c <= 0x39 then c - 0x30 + 52
    else if c == 0x2B then 62
    else 63
  }

  /** The bytes of a base64 text: three from every four characters, and one or two less for every
      equals sign at its end. */
  function FromBase64(s: Text): bytes
    decreases |s|
  {
    if |s| < 4 then []
    else
      var a, b, c, d := Sextet(s[0]), Sextet(s[1]), Sextet(s[2]), Sextet(s[3]);
      var first := (a * 4 + b / 16) as byte;
      if s[2] == 0x3D then [first]
      else
        var second := (b % 16 * 16 + c / 4) as byte;
        if s[3] == 0x3D then [first, second]
        else [first, second, (c % 4 * 64 + d) as byte] + FromBase64(s[4..])
  }

  lemma SextetOfDigit(v: nat)
    requires v < 64
    ensures Sextet(Base64Digit(v)) == v && Base64Digit(v) != 0x3D
  {
  }

  /** Three bytes make four digits, and one equals sign stands for each byte that is not there. */
  lemma GroupOfDigits(a: nat, b: nat, c: nat)
    requires a < 256 && b < 256 && c < 256
    ensures (a / 4) * 4 + (a % 4 * 16 + b / 16) / 16 == a
    ensures (a % 4 * 16 + b / 16) % 16 * 16 + (b % 16 * 4 + c / 64) / 4 == b
    ensures (b % 16 * 4 + c / 64) % 4 * 64 + c % 64 == c
  {
  }

  lemma FromGroup(x: nat, y: nat, z: nat, w: nat, rest: Text)
    requires x < 64 && y < 64 && z < 64 && w < 64
    ensures x * 4 + y / 16 < 256 && y % 16 * 16 + z / 4 < 256 && z % 4 * 64 + w < 256
    ensures FromBase64([Base64Digit(x), Base64Digit(y), EQUALS, EQUALS] + rest)
         == [(x * 4 + y / 16) as byte]
    ensures FromBase64([Base64Digit(x), Base64Digit(y), Base64Digit(z), EQUALS] + rest)
         == [(x * 4 + y / 16) as byte, (y % 16 * 16 + z / 4) as byte]
    ensures FromBase64([Base64Digit(x), Base64Digit(y), Base64Digit(z), Base64Digit(w)] + rest)
         == [(x * 4 + y / 16) as byte, (y % 16 * 16 + z / 4) as byte, (z % 4 * 64 + w) as byte]
            + FromBase64(rest)
  {
    SextetOfDigit(x);
    SextetOfDigit(y);
    SextetOfDigit(z);
    SextetOfDigit(w);
    hide Base64Digit, Sextet;
    assert ([Base64Digit(x), Base64Digit(y), Base64Digit(z), Base64Digit(w)] + rest)[4..] == rest;
  }

  /** What the first group of a base64 text stands for. */
  lemma GroupReads(a: byte, b: byte, c: byte, rest: Text)
    ensures FromBase64(Group(a as nat, b as nat, c as nat) + rest) == [a, b, c] + FromBase64(rest)
  {
    hide Base64Digit, FromBase64;
    GroupOfDigits(a as nat, b as nat, c as nat);
    FromGroup(a as nat / 4, a as nat % 4 * 16 + b as nat / 16,
              b as nat % 16 * 4 + c as nat / 64, c as nat % 64, rest);
  }

  lemma OneReads(a: byte)
    ensures FromBase64(Group(a as nat, 0, 0)[..2] + [EQUALS, EQUALS]) == [a]
  {
    hide Base64Digit, FromBase64;
    GroupOfDigits(a as nat, 0, 0);
    FromGroup(a as nat / 4, a as nat % 4 * 16, 0, 0, []);
    var digits := Group(a as nat, 0, 0)[..2] + [EQUALS, EQUALS];
    assert digits == [Base64Digit(a as nat / 4), Base64Digit(a as nat % 4 * 16), EQUALS, EQUALS] + [];
  }

  lemma TwoRead(a: byte, b: byte)
    ensures FromBase64(Group(a as nat, b as nat, 0)[..3] + [EQUALS]) == [a, b]
  {
    hide Base64Digit, FromBase64;
    GroupOfDigits(a as nat, b as nat, 0);
    FromGroup(a as nat / 4, a as nat % 4 * 16 + b as nat / 16, b as nat % 16 * 4, 0, []);
    var digits := Group(a as nat, b as nat, 0)[..3] + [EQUALS];
    assert digits == [Base64Digit(a as nat / 4), Base64Digit(a as nat % 4 * 16 + b as nat / 16),
                      Base64Digit(b as nat % 16 * 4), EQUALS] + [];
  }

  /** Bytes come back from their base64 text. */
  lemma {:induction false} Base64ReadsBack(s: bytes)
    ensures FromBase64(Base64(s)) == s
    decreases |s|
  {
    if s != [] {
      hide Group, FromBase64;
      if |s| == 1 {
        OneReads(s[0]);
      } else if |s| == 2 {
        TwoRead(s[0], s[1]);
      } else {
        Base64ReadsBack(s[3..]);
        GroupReads(s[0], s[1], s[2], Base64(s[3..]));
        assert s == [s[0], s[1], s[2]] + s[3..];
      }
    }
  }
}
