/** Whole texts for the lenient parser, written out from what they mean, with all the freedom that the
    notation leaves; and that each is read as what it was written from. */
module DpDocs {
  import opened Options
  import opened JsonText
  import opened DpString
  import opened DpPrinter
  import opened DpGrammar

  // ------------------------------------------------------------------------------------------
  // Values, objects and arrays
  // ------------------------------------------------------------------------------------------

  datatype Doc =
    | Quoted(quote: CodePoint, pieces: seq<Piece>)
    | Bare(token: Token)
    | Object(inner: Gap, members: seq<Field>)
    | Array(slots: seq<Slot>)

  /** A member of an object. Its separator is a colon or an equals sign, with or without an arrow head;
      after it stands a comma or a semicolon, unless it is the last. */
  datatype Field = Field(
    before: Gap, name: Doc, between: Gap, equals: bool, arrow: bool, middle: Gap, value: Doc,
    after: Gap, semicolon: bool)

  /** A place in an array, which may be empty. */
  datatype Slot =
    | Empty(before: Gap, semicolon: bool)
    | Full(before: Gap, value: Doc, after: Gap, semicolon: bool)

  function Delimiter(semicolon: bool): Text {
    if semicolon then [0x3B] else [0x2C]
  }

  function SeparatorText(m: Field): Text {
    [if m.equals then 0x3D else 0x3A] + if m.arrow then [0x3E] else []
  }

  function DocText(d: Doc): Text
    decreases d, 2
  {
    match d
    case Quoted(quote, pieces) => [quote] + (PiecesText(pieces) + [quote])
    case Bare(token) => TokenText(token)
    case Object(inner, members) =>
      [0x7B] + if members == [] then GapText(inner) + [0x7D] else MembersText(members)
    case Array(slots) => [0x5B] + if slots == [] then [0x5D] else SlotsText(slots)
  }

  /** Members, and the brace after the last. */
  function MembersText(members: seq<Field>): Text
    requires members != []
    decreases members, 1
  {
    var m := members[0];
    GapText(m.before)
    + (DocText(m.name)
       + (GapText(m.between)
          + (SeparatorText(m)
             + (GapText(m.middle)
                + (DocText(m.value) + (GapText(m.after) + MembersTail(members)))))))
  }

  function MembersTail(members: seq<Field>): Text
    requires members != []
    decreases members, 0
  {
    if |members| == 1 then [0x7D] else Delimiter(members[0].semicolon) + MembersText(members[1..])
  }

  /** The places of an array, and the bracket after the last. */
  function SlotsText(slots: seq<Slot>): Text
    requires slots != []
    decreases slots, 1
  {
    match slots[0]
    case Empty(before, _) => GapText(before) + SlotsTail(slots)
    case Full(before, value, after, _) =>
      GapText(before) + (DocText(value) + (GapText(after) + SlotsTail(slots)))
  }

  function SlotsTail(slots: seq<Slot>): Text
    requires slots != []
    decreases slots, 0
  {
    if |slots| == 1 then [0x5D] else Delimiter(slots[0].semicolon) + SlotsText(slots[1..])
  }

  /** What a text means. An array with a single empty place has no items; otherwise every empty place
      is null. Of members with one name the last counts, at the place of the first. */
  function DocValue(rt: Runtime, d: Doc): JsonValue
    decreases d, 2
  {
    match d
    case Quoted(_, pieces) => JString(PiecesValue(pieces))
    case Bare(token) => TokenValue(rt, token)
    case Object(_, members) => JObject(MembersValue(rt, members, []))
    case Array(slots) =>
      JArray(if |slots| == 1 && slots[0].Empty? then [] else SlotsValue(rt, slots))
  }

  function MembersValue(rt: Runtime, members: seq<Field>, entries: seq<Entry>): seq<Entry>
    decreases members, 1
  {
    if members == [] then entries
    else
      var m := members[0];
      var name, value := DocValue(rt, m.name), DocValue(rt, m.value);
      MembersValue(rt, members[1..],
                   if name.JString? then Assign(entries, name.text, value) else entries)
  }

  function SlotsValue(rt: Runtime, slots: seq<Slot>): seq<JsonValue>
    decreases slots, 1
  {
    if slots == [] then []
    else
      [if slots[0].Full? then DocValue(rt, slots[0].value) else JNull] + SlotsValue(rt, slots[1..])
  }

  /** The pieces are lawful, names are strings, and what follows a separator without an arrow head is
      not taken for one. */
  ghost predicate LawfulDoc(rt: Runtime, d: Doc)
    decreases d, 2
  {
    match d
    case Quoted(quote, pieces) => LawfulPieces(quote, pieces)
    case Bare(token) => LawfulToken(token)
    case Object(inner, members) => LawfulGap(inner) && LawfulMembers(rt, members)
    case Array(slots) => LawfulSlots(rt, slots)
  }

  ghost predicate LawfulMembers(rt: Runtime, members: seq<Field>)
    decreases members, 1
  {
    members == [] ||
    var m := members[0];
    && LawfulGap(m.before) && LawfulGap(m.between) && LawfulGap(m.middle) && LawfulGap(m.after)
    && LawfulDoc(rt, m.name) && LawfulDoc(rt, m.value) && DocValue(rt, m.name).JString?
    && (m.arrow || (GapText(m.middle) + DocText(m.value))[..1] != [0x3E])
    && LawfulMembers(rt, members[1..])
  }

  ghost predicate LawfulSlots(rt: Runtime, slots: seq<Slot>)
    decreases slots, 1
  {
    slots == [] ||
    (&& LawfulGap(slots[0].before)
     && (slots[0].Full? ==> LawfulDoc(rt, slots[0].value) && LawfulGap(slots[0].after))
     && LawfulSlots(rt, slots[1..]))
  }

  // ------------------------------------------------------------------------------------------
  // Places in a text
  // ------------------------------------------------------------------------------------------

  /** Nothing stands at this place that would belong to a word before it. */
  predicate WordEnds(text: Text, pos: nat) {
    pos >= |text| || EndsLiteral(text[pos])
  }

  lemma FirstOf(text: Text, pos: nat, s: Text)
    requires Stands(text, pos, s) && s != []
    ensures pos < |text| && text[pos] == s[0]
  {
    assert text[pos..pos + |s|][0] == s[0];
  }

  lemma GapStarts(gap: Gap)
    requires LawfulGap(gap)
    ensures GapText(gap) != [] ==> EndsLiteral(GapText(gap)[0])
  {
  }

  /** A gap, and then something that ends a word, end a word. */
  lemma GapEndsWord(text: Text, pos: nat, gap: Gap)
    requires LawfulGap(gap) && Stands(text, pos, GapText(gap))
    requires WordEnds(text, pos + |GapText(gap)|)
    ensures WordEnds(text, pos)
  {
    if GapText(gap) != [] {
      GapStarts(gap);
      FirstOf(text, pos, GapText(gap));
    }
  }

  /** A value starts with no white space, comment, separator or closing bracket. */
  lemma DocStarts(rt: Runtime, d: Doc)
    requires LawfulDoc(rt, d)
    ensures DocText(d) != []
    ensures var c := DocText(d)[0];
            !IsSpace(c) && c !in {0x2F, 0x23, 0x2C, 0x3B, 0x5D, 0x7D, 0x3A, 0x3D}
  {
    match d
    case Bare(token) => TokenStarts(token);
    case _ =>
  }

  lemma TokenStarts(t: Token)
    requires LawfulToken(t)
    ensures var s := TokenText(t);
            && s != [] && s[0] !in {0x22, 0x27}
            && forall i :: 0 <= i < |s| ==> !EndsLiteral(s[i])
  {
    match t
    case Word(k, upper) => CasedIs(k, upper);
    case Number(prefix, sign, body, base, value) => NumberCharacters(prefix, sign, body, base, value);
    case Other(_) =>
  }

  /** Three pieces one after the other. */
  lemma StandsThree(text: Text, pos: nat, a: Text, b: Text, c: Text)
    requires Stands(text, pos, a + (b + c))
    ensures Stands(text, pos, a) && Stands(text, pos + |a|, b) && Stands(text, pos + |a| + |b|, c)
    ensures |a + (b + c)| == |a| + |b| + |c| && Stands(text, pos, a + b)
  {
    hide Stands;
    StandsSplit(text, pos, a, b + c);
    StandsSplit(text, pos + |a|, b, c);
    assert a + (b + c) == a + b + c;
    StandsSplit(text, pos, a + b, c);
  }

  lemma ObjectUnfolds(inner: Gap, members: seq<Field>)
    ensures DocText(Object(inner, members))
         == [0x7B] + if members == [] then GapText(inner) + [0x7D] else MembersText(members)
  {
  }

  lemma ArrayUnfolds(slots: seq<Slot>)
    ensures DocText(Array(slots)) == [0x5B] + if slots == [] then [0x5D] else SlotsText(slots)
  {
  }

  /** What stands in a member from its value on, from its separator on, and from its start on. */
  function FromValue(members: seq<Field>): Text
    requires members != []
  {
    DocText(members[0].value) + (GapText(members[0].after) + MembersTail(members))
  }

  function FromSeparator(members: seq<Field>): Text
    requires members != []
  {
    SeparatorText(members[0]) + (GapText(members[0].middle) + FromValue(members))
  }

  lemma MembersUnfold(members: seq<Field>)
    requires members != []
    ensures MembersText(members)
         == GapText(members[0].before)
            + (DocText(members[0].name) + (GapText(members[0].between) + FromSeparator(members)))
  {
    hide DocText, GapText, SeparatorText, MembersTail;
  }

  lemma TailUnfolds(members: seq<Field>)
    requires members != []
    ensures MembersTail(members) == if |members| == 1 then [0x7D]
                                    else Delimiter(members[0].semicolon) + MembersText(members[1..])
  {
    hide MembersText, Delimiter;
  }

  lemma SlotsUnfold(rt: Runtime, slots: seq<Slot>)
    requires slots != []
    ensures var slot := slots[0];
            SlotsText(slots) ==
              GapText(slot.before)
              + if slot.Empty? then SlotsTail(slots)
                else DocText(slot.value) + (GapText(slot.after) + SlotsTail(slots))
    ensures SlotsValue(rt, slots)
         == [if slots[0].Full? then DocValue(rt, slots[0].value) else JNull]
            + SlotsValue(rt, slots[1..])
  {
    hide DocText, GapText, DocValue;
  }

  lemma SlotsTailUnfolds(slots: seq<Slot>)
    requires slots != []
    ensures SlotsTail(slots) == if |slots| == 1 then [0x5D]
                                else Delimiter(slots[0].semicolon) + SlotsText(slots[1..])
  {
    hide SlotsText, Delimiter;
  }

  lemma DelimiterIs(semicolon: bool)
    ensures |Delimiter(semicolon)| == 1 && Delimiter(semicolon)[0] in {0x2C, 0x3B}
  {
  }

  lemma LawfulHead(rt: Runtime, members: seq<Field>)
    requires members != [] && LawfulMembers(rt, members)
    ensures var m := members[0];
            && LawfulGap(m.before) && LawfulGap(m.between) && LawfulGap(m.middle)
            && LawfulGap(m.after)
            && LawfulDoc(rt, m.name) && LawfulDoc(rt, m.value) && DocValue(rt, m.name).JString?
            && (m.arrow || (GapText(m.middle) + DocText(m.value))[..1] != [0x3E])
            && LawfulMembers(rt, members[1..])
  {
    hide LawfulGap, LawfulDoc, GapText, DocText, DocValue;
  }

  lemma LawfulPlace(rt: Runtime, slots: seq<Slot>)
    requires slots != [] && LawfulSlots(rt, slots)
    ensures LawfulGap(slots[0].before) && LawfulSlots(rt, slots[1..])
    ensures slots[0].Full? ==> LawfulDoc(rt, slots[0].value) && LawfulGap(slots[0].after)
  {
    hide LawfulGap, LawfulDoc;
  }

  lemma CleanCharacter(text: Text, pos: nat)
    requires pos < |text| && !IsSpace(text[pos]) && text[pos] != 0x2F && text[pos] != 0x23
    ensures NextClean(text, pos) == Done(text[pos], pos)
  {
  }

  /** What is read after a gap is what is read behind it. */
  lemma ValueAfterGap(rt: Runtime, text: Text, pos: nat, gap: Gap)
    requires LawfulGap(gap) && Stands(text, pos, GapText(gap))
    ensures NextValue(rt, text, pos) == NextValue(rt, text, pos + |GapText(gap)|)
  {
    hide NextClean, NextValue, GapText, Stands, LawfulGap;
    GapSkipped(text, pos, gap);
    SameNextValue(rt, text, pos, pos + |GapText(gap)|);
  }

  lemma {:induction false} WordEnd(text: Text, pos: nat, token: Text)
    requires Stands(text, pos, token) && WordEnds(text, pos + |token|)
    requires forall i :: 0 <= i < |token| ==> !EndsLiteral(token[i])
    ensures LiteralEnd(text, pos) == pos + |token|
    decreases |token|
  {
    hide EndsLiteral;
    if token != [] {
      assert [token[0]] + token[1..] == token;
      StandsSplit(text, pos, [token[0]], token[1..]);
      StandsCharacter(text, pos, token[0]);
      WordEnd(text, pos + 1, token[1..]);
    }
  }

  lemma LiteralReads(rt: Runtime, text: Text, pos: nat, s: Text)
    requires pos < |text| && NextClean(text, pos) == Done(text[pos], pos)
    requires !EndsLiteral(text[pos]) && text[pos] !in {0x22, 0x27}
    requires LiteralEnd(text, pos) == pos + |s| <= |text| && text[pos..pos + |s|] == s != []
    ensures NextValue(rt, text, pos) == Done(Classify(rt, s), pos + |s|)
  {
    hide NextClean, LiteralEnd, Classify;
  }

  lemma BareReads(rt: Runtime, text: Text, pos: nat, t: Token)
    requires LawfulToken(t) && Stands(text, pos, TokenText(t))
    requires WordEnds(text, pos + |TokenText(t)|)
    ensures NextValue(rt, text, pos) == Done(TokenValue(rt, t), pos + |TokenText(t)|)
  {
    hide LawfulToken, TokenText, TokenValue, Classify, NextValue, NextClean, LiteralEnd;
    var s := TokenText(t);
    TokenStarts(t);
    TokenClassified(rt, t);
    WordEnd(text, pos, s);
    FirstOf(text, pos, s);
    CleanCharacter(text, pos);
    LiteralReads(rt, text, pos, s);
  }

  lemma QuotedDocReads(rt: Runtime, text: Text, pos: nat, quote: CodePoint, pieces: seq<Piece>)
    requires LawfulPieces(quote, pieces)
    requires Stands(text, pos, [quote] + (PiecesText(pieces) + [quote]))
    ensures NextValue(rt, text, pos)
         == Done(JString(PiecesValue(pieces)), pos + |PiecesText(pieces)| + 2)
  {
    StandsSplit(text, pos, [quote], PiecesText(pieces) + [quote]);
    StandsCharacter(text, pos, quote);
    PiecesRead(rt, text, pos + 1, quote, pieces, []);
    assert [] + PiecesValue(pieces) == PiecesValue(pieces);
    CleanCharacter(text, pos);
    hide NextClean, StringBody, PiecesText, PiecesValue, LawfulPieces;
  }

  // ------------------------------------------------------------------------------------------
  // Every text is read as what it means
  // ------------------------------------------------------------------------------------------

  /** A value that stands in a text, followed by nothing that would belong to its last word, is read
      as what it means, to its end. */
  lemma {:induction false} DocReads(rt: Runtime, text: Text, pos: nat, d: Doc)
    requires LawfulDoc(rt, d) && Stands(text, pos, DocText(d)) && WordEnds(text, pos + |DocText(d)|)
    ensures NextValue(rt, text, pos) == Done(DocValue(rt, d), pos + |DocText(d)|)
    decreases d, 2
  {
    match d
    case Quoted(quote, pieces) => QuotedDocReads(rt, text, pos, quote, pieces);
    case Bare(token) => BareReads(rt, text, pos, token);
    case Object(inner, members) => 
      hide NextValue, Stands;
      ObjectReads(rt, text, pos, inner, members);
    case Array(slots) => 
      hide NextValue, Stands;
      ArrayReads(rt, text, pos, slots);
  }

  lemma {:induction false} ObjectReads(
    rt: Runtime, text: Text, pos: nat, inner: Gap, members: seq<Field>)
    requires LawfulGap(inner) && LawfulMembers(rt, members)
    requires Stands(text, pos, DocText(Object(inner, members)))
    ensures NextValue(rt, text, pos)
         == Done(JObject(MembersValue(rt, members, [])),
                 pos + |DocText(Object(inner, members))|)
    decreases members, 2
  {
    ObjectUnfolds(inner, members);
    hide NextClean, Stands, DocText, MembersText, NextValue, LawfulMembers, DocValue, GapText,
      Members, MembersValue;
    var rest := if members == [] then GapText(inner) + [0x7D] else MembersText(members);
    StandsSplit(text, pos, [0x7B], rest);
    StandsCharacter(text, pos, 0x7B);
    CleanCharacter(text, pos);
    ObjectOpens(rt, text, pos);
    if members == [] {
      StandsSplit(text, pos + 1, GapText(inner), [0x7D]);
      GapSkipped(text, pos + 1, inner);
      StandsCharacter(text, pos + 1 + |GapText(inner)|, 0x7D);
      CleanCharacter(text, pos + 1 + |GapText(inner)|);
      NoMembers(rt);
    } else {
      var at := MembersStart(rt, text, pos + 1, members);
      MembersAfterGap(rt, text, pos + 1, at, []);
      MembersReads(rt, text, pos + 1, members, []);
    }
  }

  lemma NoMembers(rt: Runtime)
    ensures MembersValue(rt, [], []) == []
  {
  }

  lemma ObjectOpens(rt: Runtime, text: Text, pos: nat)
    requires NextClean(text, pos) == Done(0x7B, pos)
    ensures NextValue(rt, text, pos) == ReadObject(rt, text, pos + 1)
  {
    hide NextClean, ReadObject;
  }

  lemma MembersAfterGap(rt: Runtime, text: Text, p: nat, q: nat, entries: seq<Entry>)
    requires NextClean(text, p) == NextClean(text, q)
    ensures Members(rt, text, p, entries) == Members(rt, text, q, entries)
  {
    hide Member, NextClean, NextValue;
    SameNextValue(rt, text, p, q);
    SameMember(rt, text, p, q);
  }

  lemma SameMember(rt: Runtime, text: Text, p: nat, q: nat)
    requires NextValue(rt, text, p) == NextValue(rt, text, q)
    ensures Member(rt, text, p) == Member(rt, text, q)
  {
    hide NextValue, Separator;
  }

  lemma SameNextValue(rt: Runtime, text: Text, p: nat, q: nat)
    requires NextClean(text, p) == NextClean(text, q)
    ensures NextValue(rt, text, p) == NextValue(rt, text, q)
  {
    hide NextClean, ReadObject, Items, ReadLiteral, NextString;
  }

  /** The first name begins the members, after the gap before it. */
  lemma MembersStart(rt: Runtime, text: Text, pos: nat, members: seq<Field>) returns (at: nat)
    requires members != [] && LawfulMembers(rt, members) && Stands(text, pos, MembersText(members))
    ensures at == pos + |GapText(members[0].before)|
    ensures at < |text| && text[at] != 0x7D
    ensures NextClean(text, pos) == NextClean(text, at) == Done(text[at], at)
  {
    hide NextClean, Stands, DocText, MembersText, GapText, LawfulMembers, LawfulDoc, DocValue;
    var m := members[0];
    var p2, p3;
    at, p2, p3 := NamePlaces(text, pos, members);
    LawfulHead(rt, members);
    GapSkipped(text, pos, m.before);
    DocStarts(rt, m.name);
    FirstOf(text, at, DocText(m.name));
    CleanCharacter(text, at);
  }

  /** Where the parts of a member stand. */
  lemma MemberPlaces(text: Text, pos: nat, members: seq<Field>)
    returns (p1: nat, p2: nat, p3: nat, p4: nat, p5: nat, p6: nat, p7: nat)
    requires members != [] && Stands(text, pos, MembersText(members))
    ensures var m := members[0];
            && p1 == pos + |GapText(m.before)| && p2 == p1 + |DocText(m.name)|
            && p3 == p2 + |GapText(m.between)| && p4 == p3 + |SeparatorText(m)|
            && p5 == p4 + |GapText(m.middle)| && p6 == p5 + |DocText(m.value)|
            && p7 == p6 + |GapText(m.after)|
            && Stands(text, pos, GapText(m.before)) && Stands(text, p1, DocText(m.name))
            && Stands(text, p2, GapText(m.between)) && Stands(text, p3, SeparatorText(m))
            && Stands(text, p4, GapText(m.middle)) && Stands(text, p5, DocText(m.value))
            && Stands(text, p6, GapText(m.after)) && Stands(text, p7, MembersTail(members))
            && pos + |MembersText(members)| == p7 + |MembersTail(members)|
            && Stands(text, p4, GapText(m.middle) + DocText(m.value))
  {
    hide DocText, GapText, SeparatorText, MembersText, MembersTail, Stands, FromSeparator, FromValue;
    p1, p2, p3 := NamePlaces(text, pos, members);
    p4, p5, p6, p7 := ValuePlaces(text, p3, members);
  }

  lemma NamePlaces(text: Text, pos: nat, members: seq<Field>) returns (p1: nat, p2: nat, p3: nat)
    requires members != [] && Stands(text, pos, MembersText(members))
    ensures var m := members[0];
            && p1 == pos + |GapText(m.before)| && p2 == p1 + |DocText(m.name)|
            && p3 == p2 + |GapText(m.between)|
            && Stands(text, pos, GapText(m.before)) && Stands(text, p1, DocText(m.name))
            && Stands(text, p2, GapText(m.between)) && Stands(text, p3, FromSeparator(members))
            && pos + |MembersText(members)| == p3 + |FromSeparator(members)|
  {
    hide DocText, GapText, MembersText, Stands, FromSeparator;
    MembersUnfold(members);
    p1, p2, p3 := FourPieces(text, pos, GapText(members[0].before), DocText(members[0].name),
                             GapText(members[0].between), FromSeparator(members));
  }

  lemma FourPieces(text: Text, pos: nat, a: Text, b: Text, c: Text, e: Text)
    returns (p1: nat, p2: nat, p3: nat)
    requires Stands(text, pos, a + (b + (c + e)))
    ensures p1 == pos + |a| && p2 == p1 + |b| && p3 == p2 + |c|
    ensures Stands(text, pos, a) && Stands(text, p1, b) && Stands(text, p2, c) && Stands(text, p3, e)
    ensures Stands(text, pos, a + b) && Stands(text, p1, b + c)
    ensures pos + |a + (b + (c + e))| == p3 + |e|
  {
    hide Stands;
    p1, p2, p3 := pos + |a|, pos + |a| + |b|, pos + |a| + |b| + |c|;
    StandsThree(text, pos, a, b, c + e);
    StandsSplit(text, pos, a, b + (c + e));
    StandsThree(text, p1, b, c, e);
  }

  lemma ValuePlaces(text: Text, pos: nat, members: seq<Field>)
    returns (p4: nat, p5: nat, p6: nat, p7: nat)
    requires members != [] && Stands(text, pos, FromSeparator(members))
    ensures var m := members[0];
            && p4 == pos + |SeparatorText(m)|
            && p5 == p4 + |GapText(m.middle)| && p6 == p5 + |DocText(m.value)|
            && p7 == p6 + |GapText(m.after)|
            && Stands(text, pos, SeparatorText(m))
            && Stands(text, p4, GapText(m.middle)) && Stands(text, p5, DocText(m.value))
            && Stands(text, p6, GapText(m.after)) && Stands(text, p7, MembersTail(members))
            && pos + |FromSeparator(members)| == p7 + |MembersTail(members)|
            && Stands(text, p4, GapText(m.middle) + DocText(m.value))
  {
    hide DocText, GapText, SeparatorText, MembersTail, Stands;
    var m := members[0];
    var last := GapText(m.after) + MembersTail(members);
    p4, p5, p6 := FourPieces(text, pos, SeparatorText(m), GapText(m.middle), DocText(m.value), last);
    p7 := p6 + |GapText(m.after)|;
    StandsSplit(text, p6, GapText(m.after), MembersTail(members));
  }

  /** The separator of a member, up to the gap before its value. */
  lemma SeparatorReads(text: Text, pos: nat, m: Field)
    requires LawfulGap(m.between) && Stands(text, pos, GapText(m.between))
    requires var p := pos + |GapText(m.between)|;
             && Stands(text, p, SeparatorText(m))
             && (!m.arrow ==> p + 1 >= |text| || text[p + 1] != 0x3E)
    ensures Separator(text, pos) == Done((), pos + |GapText(m.between)| + |SeparatorText(m)|)
    ensures WordEnds(text, pos)
  {
    hide NextClean, Stands, GapText, SeparatorText, LawfulGap, Separator;
    var p := pos + |GapText(m.between)|;
    GapSkipped(text, pos, m.between);
    SeparatorStands(text, p, m);
    CleanCharacter(text, p);
    GapEndsWord(text, pos, m.between);
    SeparatorIs(text, pos, p, m.arrow);
  }

  lemma SeparatorStands(text: Text, p: nat, m: Field)
    requires Stands(text, p, SeparatorText(m))
    requires !m.arrow ==> p + 1 >= |text| || text[p + 1] != 0x3E
    ensures p < |text| && text[p] in {0x3A, 0x3D}
    ensures |SeparatorText(m)| == if m.arrow then 2 else 1
    ensures m.arrow <==> p + 1 < |text| && text[p + 1] == 0x3E
  {
    FirstOf(text, p, SeparatorText(m));
    assert m.arrow ==> text[p + 1] == text[p..p + 2][1] == 0x3E;
  }

  lemma SeparatorIs(text: Text, pos: nat, p: nat, arrow: bool)
    requires p < |text| && text[p] in {0x3A, 0x3D} && NextClean(text, pos) == Done(text[p], p)
    requires arrow <==> p + 1 < |text| && text[p + 1] == 0x3E
    ensures Separator(text, pos) == Done((), p + if arrow then 2 else 1)
  {
    hide NextClean;
  }

  lemma SeparatorShort(m: Field)
    requires !m.arrow
    ensures |SeparatorText(m)| == 1
  {
  }

  lemma NoArrow(text: Text, pos: nat, s: Text)
    requires Stands(text, pos, s) && s != [] && s[..1] != [0x3E]
    ensures text[pos] != 0x3E
  {
    FirstOf(text, pos, s);
    assert s[..1] == [s[0]];
  }

  /** What follows a member: its gap, and then what ends a word. */
  lemma TailStarts(text: Text, pos: nat, members: seq<Field>)
    requires members != [] && Stands(text, pos, MembersTail(members))
    ensures pos < |text| && WordEnds(text, pos)
    ensures |members| == 1 ==> text[pos] == 0x7D && |MembersTail(members)| == 1
    ensures |members| > 1 ==>
              && text[pos] in {0x2C, 0x3B} && Stands(text, pos + 1, MembersText(members[1..]))
              && |MembersTail(members)| == 1 + |MembersText(members[1..])|
  {
    hide MembersText, MembersTail, Delimiter, Stands;
    TailUnfolds(members);
    if |members| == 1 {
      StandsCharacter(text, pos, 0x7D);
    } else {
      DelimiterIs(members[0].semicolon);
      StandsSplit(text, pos, Delimiter(members[0].semicolon), MembersText(members[1..]));
      FirstOf(text, pos, Delimiter(members[0].semicolon));
    }
  }

  /** One member, up to the end of its value. */
  lemma {:induction false} MemberReads(
    rt: Runtime, text: Text, pos: nat, members: seq<Field>) returns (end: nat)
    requires members != [] && LawfulMembers(rt, members) && Stands(text, pos, MembersText(members))
    ensures Member(rt, text, pos)
         == Done(Entry(DocValue(rt, members[0].name).text, DocValue(rt, members[0].value)), end)
    ensures Stands(text, end, GapText(members[0].after))
    ensures end + |GapText(members[0].after)| + |MembersTail(members)|
         == pos + |MembersText(members)|
    ensures Stands(text, end + |GapText(members[0].after)|, MembersTail(members))
    decreases members, 0
  {
    hide NextClean, Stands, DocText, MembersText, GapText, MembersTail, NextValue, Member, Separator,
      DocValue, LawfulDoc, LawfulMembers, SeparatorText, LawfulGap, WordEnds;
    var m := members[0];
    var p1, p2, p3, p4, p5, p6, p7 := MemberPlaces(text, pos, members);
    LawfulHead(rt, members);
    end := p6;
    DocStarts(rt, m.value);
    if !m.arrow {
      NoArrow(text, p4, GapText(m.middle) + DocText(m.value));
      SeparatorShort(m);
    }
    SeparatorReads(text, p2, m);
    ValueAfterGap(rt, text, pos, m.before);
    DocReads(rt, text, p1, m.name);
    TailStarts(text, p7, members);
    GapEndsWord(text, end, m.after);
    ValueAfterGap(rt, text, p4, m.middle);
    DocReads(rt, text, p5, m.value);
    MemberStep(rt, text, pos, DocValue(rt, m.name).text, p2, p4, DocValue(rt, m.value), end);
  }

  /** What comes after a member: the end of the object, or the next member. */
  lemma MemberEnd(rt: Runtime, text: Text, end: nat, members: seq<Field>) returns (p: nat)
    requires members != [] && LawfulMembers(rt, members) && Stands(text, end, GapText(members[0].after))
    requires Stands(text, end + |GapText(members[0].after)|, MembersTail(members))
    ensures p == end + |GapText(members[0].after)|
    ensures p < |text| && NextClean(text, end) == Done(text[p], p)
    ensures |members| == 1 ==> text[p] == 0x7D && |MembersTail(members)| == 1
    ensures |members| > 1 ==>
              && text[p] in {0x2C, 0x3B} && Stands(text, p + 1, MembersText(members[1..]))
              && |MembersTail(members)| == 1 + |MembersText(members[1..])|
  {
    hide NextClean, Stands, DocText, MembersText, GapText, MembersTail, LawfulMembers, LawfulGap;
    LawfulHead(rt, members);
    p := end + |GapText(members[0].after)|;
    GapSkipped(text, end, members[0].after);
    TailStarts(text, p, members);
    CleanCharacter(text, p);
  }

  lemma {:induction false} MembersReads(
    rt: Runtime, text: Text, pos: nat, members: seq<Field>, entries: seq<Entry>)
    requires members != [] && LawfulMembers(rt, members) && Stands(text, pos, MembersText(members))
    ensures Members(rt, text, pos, entries)
         == Done(JObject(MembersValue(rt, members, entries)), pos + |MembersText(members)|)
    decreases members, 1
  {
    hide NextClean, Stands, DocText, MembersText, GapText, MembersTail, NextValue, Member, Members,
      DocValue, LawfulDoc, LawfulMembers, LawfulGap, MembersValue, WordEnds;
    LawfulHead(rt, members);
    MembersValueStep(rt, members, entries);
    var end := MemberReads(rt, text, pos, members);
    var p := MemberEnd(rt, text, end, members);
    var entry := Entry(DocValue(rt, members[0].name).text, DocValue(rt, members[0].value));
    var updated := Assign(entries, entry.key, entry.value);
    MembersStep(rt, text, pos, entries, entry, end);
    hide Assign;
    if |members| > 1 {
      MembersReads(rt, text, p + 1, members[1..], updated);
    } else {
      assert members[1..] == [];
      NoMoreMembers(rt, updated);
    }
  }

  lemma MembersValueStep(rt: Runtime, members: seq<Field>, entries: seq<Entry>)
    requires members != [] && DocValue(rt, members[0].name).JString?
    ensures MembersValue(rt, members, entries)
         == MembersValue(rt, members[1..], Assign(entries, DocValue(rt, members[0].name).text,
                                                  DocValue(rt, members[0].value)))
  {
    hide DocValue;
  }

  lemma NoMoreMembers(rt: Runtime, entries: seq<Entry>)
    ensures MembersValue(rt, [], entries) == entries
  {
  }

  lemma MembersStep(
    rt: Runtime, text: Text, pos: nat, entries: seq<Entry>, entry: Entry, end: nat)
    requires Member(rt, text, pos) == Done(entry, end)
    requires NextClean(text, end).Done? && NextClean(text, end).value in {0x7D, 0x2C, 0x3B}
    ensures var updated := Assign(entries, entry.key, entry.value);
            var clean := NextClean(text, end);
            Members(rt, text, pos, entries) ==
              if clean.value == 0x7D then Done(JObject(updated), clean.pos + 1)
              else Members(rt, text, clean.pos + 1, updated)
  {
    hide Member, NextClean, Assign;
  }

  // Arrays

  lemma {:induction false} ArrayReads(rt: Runtime, text: Text, pos: nat, slots: seq<Slot>)
    requires LawfulSlots(rt, slots) && Stands(text, pos, DocText(Array(slots)))
    ensures NextValue(rt, text, pos)
         == Done(DocValue(rt, Array(slots)), pos + |DocText(Array(slots))|)
    decreases slots, 2
  {
    ArrayUnfolds(slots);
    hide NextClean, Stands, DocText, SlotsText, NextValue, Items, SlotsValue, LawfulSlots;
    var rest := if slots == [] then [0x5D] else SlotsText(slots);
    StandsSplit(text, pos, [0x5B], rest);
    StandsCharacter(text, pos, 0x5B);
    CleanCharacter(text, pos);
    ArrayOpens(rt, text, pos);
    if slots == [] {
      StandsCharacter(text, pos + 1, 0x5D);
      CleanCharacter(text, pos + 1);
      ItemsEnd(rt, text, pos + 1, [], false);
      NoSlots(rt, slots);
    } else {
      SlotsReads(rt, text, pos + 1, slots, [], false);
      assert [] + SlotsValue(rt, slots) == SlotsValue(rt, slots);
    }
  }

  lemma ArrayOpens(rt: Runtime, text: Text, pos: nat)
    requires NextClean(text, pos) == Done(0x5B, pos)
    ensures NextValue(rt, text, pos) == Items(rt, text, pos + 1, [], false)
  {
    hide NextClean, Items;
  }

  lemma ItemsEnd(rt: Runtime, text: Text, pos: nat, items: seq<JsonValue>, trailing: bool)
    requires NextClean(text, pos).Done? && NextClean(text, pos).value == 0x5D
    ensures Items(rt, text, pos, items, trailing)
         == Done(JArray(if trailing then items + [JNull] else items), NextClean(text, pos).pos + 1)
  {
    hide NextClean;
  }

  lemma ItemsEmptyPlace(rt: Runtime, text: Text, pos: nat, items: seq<JsonValue>, trailing: bool)
    requires NextClean(text, pos).Done? && NextClean(text, pos).value in {0x2C, 0x3B}
    ensures Items(rt, text, pos, items, trailing)
         == Items(rt, text, NextClean(text, pos).pos + 1, items + [JNull], true)
  {
    hide NextClean;
  }

  lemma ItemsValue(
    rt: Runtime, text: Text, pos: nat, at: nat, value: JsonValue, next: nat, items: seq<JsonValue>,
    trailing: bool)
    requires at < |text| && NextClean(text, pos) == Done(text[at], at)
    requires text[at] !in {0x2C, 0x3B, 0x5D}
    requires NextValue(rt, text, at) == Done(value, next)
    requires NextClean(text, next).Done? && NextClean(text, next).value in {0x2C, 0x3B, 0x5D}
    ensures var after := NextClean(text, next);
            Items(rt, text, pos, items, trailing) ==
              if after.value == 0x5D then Done(JArray(items + [value]), after.pos + 1)
              else Items(rt, text, after.pos + 1, items + [value], true)
  {
    hide NextClean, NextValue;
  }

  lemma SlotsTailStarts(text: Text, pos: nat, slots: seq<Slot>)
    requires slots != [] && Stands(text, pos, SlotsTail(slots))
    ensures pos < |text| && WordEnds(text, pos)
    ensures |slots| == 1 ==> text[pos] == 0x5D && |SlotsTail(slots)| == 1
    ensures |slots| > 1 ==>
              && text[pos] in {0x2C, 0x3B} && Stands(text, pos + 1, SlotsText(slots[1..]))
              && |SlotsTail(slots)| == 1 + |SlotsText(slots[1..])|
  {
    hide SlotsText, SlotsTail, Delimiter, Stands;
    SlotsTailUnfolds(slots);
    if |slots| == 1 {
      StandsCharacter(text, pos, 0x5D);
    } else {
      DelimiterIs(slots[0].semicolon);
      StandsSplit(text, pos, Delimiter(slots[0].semicolon), SlotsText(slots[1..]));
      FirstOf(text, pos, Delimiter(slots[0].semicolon));
    }
  }

  /** The items of an array, after those before them: every place gives one, with null for an empty
      place, unless it is the only one. */
  lemma {:induction false} SlotsReads(
    rt: Runtime, text: Text, pos: nat, slots: seq<Slot>, items: seq<JsonValue>, trailing: bool)
    requires slots != [] && LawfulSlots(rt, slots) && Stands(text, pos, SlotsText(slots))
    ensures Items(rt, text, pos, items, trailing)
         == Done(JArray(if |slots| == 1 && slots[0].Empty? && !trailing then items
                        else items + SlotsValue(rt, slots)),
                 pos + |SlotsText(slots)|)
    decreases slots, 1
  {
    if slots[0].Empty? {
      EmptyPlaceReads(rt, text, pos, slots, items, trailing);
    } else {
      FullPlaceReads(rt, text, pos, slots, items, trailing);
    }
  }

  /** An empty place, up to the bracket or the delimiter after it. */
  lemma EmptyPlace(rt: Runtime, text: Text, pos: nat, slots: seq<Slot>) returns (p: nat)
    requires slots != [] && LawfulSlots(rt, slots) && Stands(text, pos, SlotsText(slots))
    requires slots[0].Empty?
    ensures p < |text| && NextClean(text, pos) == Done(text[p], p)
    ensures |slots| == 1 ==> text[p] == 0x5D && pos + |SlotsText(slots)| == p + 1
    ensures |slots| > 1 ==>
              && text[p] in {0x2C, 0x3B} && Stands(text, p + 1, SlotsText(slots[1..]))
              && pos + |SlotsText(slots)| == p + 1 + |SlotsText(slots[1..])|
  {
    hide NextClean, Stands, SlotsText, SlotsTail, GapText, SlotsValue, LawfulSlots, LawfulGap;
    SlotsUnfold(rt, slots);
    LawfulPlace(rt, slots);
    p := pos + |GapText(slots[0].before)|;
    StandsSplit(text, pos, GapText(slots[0].before), SlotsTail(slots));
    GapSkipped(text, pos, slots[0].before);
    SlotsTailStarts(text, p, slots);
    CleanCharacter(text, p);
  }

  lemma OneMoreItem(items: seq<JsonValue>, v: JsonValue, more: seq<JsonValue>)
    ensures items + [v] + more == items + ([v] + more)
    ensures more == [] ==> items + ([v] + more) == items + [v]
  {
  }

  lemma {:induction false} EmptyPlaceReads(
    rt: Runtime, text: Text, pos: nat, slots: seq<Slot>, items: seq<JsonValue>, trailing: bool)
    requires slots != [] && LawfulSlots(rt, slots) && Stands(text, pos, SlotsText(slots))
    requires slots[0].Empty?
    ensures Items(rt, text, pos, items, trailing)
         == Done(JArray(if |slots| == 1 && !trailing then items
                        else items + SlotsValue(rt, slots)),
                 pos + |SlotsText(slots)|)
    decreases slots, 0
  {
    hide NextClean, Stands, SlotsText, Items, SlotsValue, LawfulSlots;
    SlotsUnfold(rt, slots);
    LawfulPlace(rt, slots);
    var p := EmptyPlace(rt, text, pos, slots);
    OneMoreItem(items, JNull, SlotsValue(rt, slots[1..]));
    if |slots| == 1 {
      ItemsEnd(rt, text, pos, items, trailing);
      NoSlots(rt, slots[1..]);
    } else {
      ItemsEmptyPlace(rt, text, pos, items, trailing);
      SlotsReads(rt, text, p + 1, slots[1..], items + [JNull], true);
    }
  }

  lemma NoSlots(rt: Runtime, slots: seq<Slot>)
    requires slots == []
    ensures SlotsValue(rt, slots) == []
  {
  }

  /** A full place: where its value stands, and what comes after it. */
  lemma FullPlace(rt: Runtime, text: Text, pos: nat, slots: seq<Slot>)
    returns (at: nat, next: nat, p: nat)
    requires slots != [] && LawfulSlots(rt, slots) && Stands(text, pos, SlotsText(slots))
    requires slots[0].Full?
    ensures at < |text| && NextClean(text, pos) == Done(text[at], at)
    ensures text[at] !in {0x2C, 0x3B, 0x5D}
    ensures Stands(text, at, DocText(slots[0].value)) && next == at + |DocText(slots[0].value)|
    ensures WordEnds(text, next) && p < |text| && NextClean(text, next) == Done(text[p], p)
    ensures |slots| == 1 ==> text[p] == 0x5D && pos + |SlotsText(slots)| == p + 1
    ensures |slots| > 1 ==>
              && text[p] in {0x2C, 0x3B} && Stands(text, p + 1, SlotsText(slots[1..]))
              && pos + |SlotsText(slots)| == p + 1 + |SlotsText(slots[1..])|
  {
    hide NextClean, Stands, SlotsText, SlotsTail, GapText, DocText, SlotsValue, DocValue, LawfulDoc,
      LawfulSlots, LawfulGap, WordEnds;
    SlotsUnfold(rt, slots);
    LawfulPlace(rt, slots);
    var slot := slots[0];
    at, next, p := FourPieces(text, pos, GapText(slot.before), DocText(slot.value),
                              GapText(slot.after), SlotsTail(slots));
    GapSkipped(text, pos, slot.before);
    DocStarts(rt, slot.value);
    FirstOf(text, at, DocText(slot.value));
    CleanCharacter(text, at);
    SlotsTailStarts(text, p, slots);
    GapEndsWord(text, next, slot.after);
    GapSkipped(text, next, slot.after);
    SlotsTailClean(text, p, slots);
  }

  lemma SlotsTailClean(text: Text, p: nat, slots: seq<Slot>)
    requires slots != [] && Stands(text, p, SlotsTail(slots))
    ensures p < |text| && NextClean(text, p) == Done(text[p], p)
  {
    hide NextClean, Stands, SlotsTail;
    SlotsTailStarts(text, p, slots);
    CleanCharacter(text, p);
  }

  lemma {:induction false} FullPlaceReads(
    rt: Runtime, text: Text, pos: nat, slots: seq<Slot>, items: seq<JsonValue>, trailing: bool)
    requires slots != [] && LawfulSlots(rt, slots) && Stands(text, pos, SlotsText(slots))
    requires slots[0].Full?
    ensures Items(rt, text, pos, items, trailing)
         == Done(JArray(items + SlotsValue(rt, slots)), pos + |SlotsText(slots)|)
    decreases slots, 0
  {
    hide NextClean, Stands, SlotsText, DocText, NextValue, Items, SlotsValue, DocValue, LawfulDoc,
      LawfulSlots, WordEnds;
    SlotsUnfold(rt, slots);
    LawfulPlace(rt, slots);
    var value := DocValue(rt, slots[0].value);
    var at, next, p := FullPlace(rt, text, pos, slots);
    DocReads(rt, text, at, slots[0].value);
    ItemsValue(rt, text, pos, at, value, next, items, trailing);
    OneMoreItem(items, value, SlotsValue(rt, slots[1..]));
    if |slots| == 1 {
      NoSlots(rt, slots[1..]);
    } else {
      SlotsReads(rt, text, p + 1, slots[1..], items + [value], true);
    }
  }

  // ------------------------------------------------------------------------------------------
  // The whole parser
  // ------------------------------------------------------------------------------------------

  /** Every object that is written in this notation is parsed as what it means: after an optional byte
      order mark and any gap, and whatever follows it. */
  lemma TextParses(rt: Runtime, mark: bool, gap: Gap, inner: Gap, members: seq<Field>, rest: Text)
    requires LawfulGap(gap) && LawfulDoc(rt, Object(inner, members))
    ensures var text := GapText(gap) + (DocText(Object(inner, members)) + rest);
            ParseObject(rt, (if mark then [0xFEFF] else []) + text)
              == Done(JObject(MembersValue(rt, members, [])),
                      |GapText(gap)| + |DocText(Object(inner, members))|)
  {
    var body := DocText(Object(inner, members));
    var text := GapText(gap) + (body + rest);
    ObjectUnfolds(inner, members);
    hide NextClean, NextValue, DocText, GapText, LawfulGap, LawfulDoc, Stands, MembersValue, MembersText;
    PiecesStand(GapText(gap), body, rest);
    ValueAfterGap(rt, text, 0, gap);
    ObjectReadsAnywhere(rt, text, |GapText(gap)|, inner, members);
    WithoutMark(rt, mark, gap, body, rest);
  }

  lemma PiecesStand(a: Text, b: Text, c: Text)
    ensures Stands(a + (b + c), 0, a) && Stands(a + (b + c), |a|, b)
  {
    var text := a + (b + c);
    assert text[0..0 + |a|] == a && text[|a|..|a| + |b|] == b;
  }

  lemma ObjectReadsAnywhere(
    rt: Runtime, text: Text, pos: nat, inner: Gap, members: seq<Field>)
    requires LawfulDoc(rt, Object(inner, members))
    requires Stands(text, pos, DocText(Object(inner, members)))
    ensures NextValue(rt, text, pos)
         == Done(JObject(MembersValue(rt, members, [])),
                 pos + |DocText(Object(inner, members))|)
  {
    ObjectReads(rt, text, pos, inner, members);
  }

  /** A byte order mark is dropped; a text that starts with a gap or a brace has none. */
  lemma WithoutMark(rt: Runtime, mark: bool, gap: Gap, body: Text, rest: Text)
    requires LawfulGap(gap) && body != [] && body[0] == 0x7B
    ensures var text := GapText(gap) + (body + rest);
            ParseObject(rt, (if mark then [0xFEFF] else []) + text) ==
              match NextValue(rt, text, 0)
              case Fail(error) => Fail(error)
              case Done(value, pos) => if value.JObject? then Done(value, pos) else Fail(ObjectExpected)
  {
    hide NextValue;
    var text := GapText(gap) + (body + rest);
    var given := (if mark then [0xFEFF] else []) + text;
    if mark {
      assert given[1..] == text;
    } else {
      assert given == text;
      GapStarts(gap);
      assert text[0] == if GapText(gap) != [] then GapText(gap)[0] else body[0];
    }
  }

  /** Whatever is no object is refused. */
  lemma OnlyObjects(rt: Runtime, d: Doc, rest: Text)
    requires LawfulDoc(rt, d) && !d.Object? && DocText(d)[..1] != [0xFEFF]
    requires rest == [] || EndsLiteral(rest[0])
    ensures ParseObject(rt, DocText(d) + rest) == Fail(ObjectExpected)
  {
    var text := DocText(d) + rest;
    DocStarts(rt, d);
    assert text[..1] == DocText(d)[..1] == [text[0]];
    assert Stands(text, 0, DocText(d)) by {
      assert text[0..0 + |DocText(d)|] == DocText(d);
    }
    hide DocText, Stands, NextValue;
    DocReads(rt, text, 0, d);
    NotAnObject(rt, d);
  }

  lemma NotAnObject(rt: Runtime, d: Doc)
    requires !d.Object?
    ensures !DocValue(rt, d).JObject?
  {
  }

  // ------------------------------------------------------------------------------------------
  // What is refused
  // ------------------------------------------------------------------------------------------

  /** A name that is no text. */
  lemma NameMustBeText(rt: Runtime, text: Text, pos: nat, name: Doc, entries: seq<Entry>)
    requires LawfulDoc(rt, name) && Stands(text, pos, DocText(name))
    requires WordEnds(text, pos + |DocText(name)|) && !DocValue(rt, name).JString?
    ensures Members(rt, text, pos, entries) == Fail(NamesMustBeStrings)
  {
    hide DocText, Stands, DocValue, NextValue, LawfulDoc;
    DocReads(rt, text, pos, name);
  }

  /** A name that is followed by neither a colon nor an equals sign. */
  lemma SeparatorMustFollow(
    rt: Runtime, text: Text, pos: nat, name: Doc, gap: Gap, entries: seq<Entry>)
    requires LawfulDoc(rt, name) && Stands(text, pos, DocText(name)) && DocValue(rt, name).JString?
    requires var end := pos + |DocText(name)|;
             && WordEnds(text, end) && LawfulGap(gap) && Stands(text, end, GapText(gap))
             && end + |GapText(gap)| < |text|
             && var c := text[end + |GapText(gap)|];
                !IsSpace(c) && c !in {0x2F, 0x23, 0x3A, 0x3D}
    ensures Members(rt, text, pos, entries) == Fail(ExpectedColon)
  {
    hide DocText, Stands, DocValue, NextValue, LawfulDoc, GapText, LawfulGap, NextClean;
    DocReads(rt, text, pos, name);
    var end := pos + |DocText(name)|;
    GapSkipped(text, end, gap);
    CleanCharacter(text, end + |GapText(gap)|);
  }

  /** A member that is followed by neither a delimiter nor the end of the object. */
  lemma DelimiterMustFollow(
    rt: Runtime, text: Text, pos: nat, entries: seq<Entry>, entry: Entry, end: nat, gap: Gap)
    requires Member(rt, text, pos) == Done(entry, end)
    requires LawfulGap(gap) && Stands(text, end, GapText(gap)) && end + |GapText(gap)| < |text|
    requires var c := text[end + |GapText(gap)|];
             !IsSpace(c) && c !in {0x2F, 0x23, 0x2C, 0x3B, 0x7D}
    ensures Members(rt, text, pos, entries) == Fail(UnterminatedObject)
  {
    hide Member, Stands, GapText, LawfulGap, NextClean;
    GapSkipped(text, end, gap);
    CleanCharacter(text, end + |GapText(gap)|);
  }

  /** An item that is followed by neither a delimiter nor the end of the array. */
  lemma ItemMustEnd(
    rt: Runtime, text: Text, pos: nat, items: seq<JsonValue>, trailing: bool, item: Doc, gap: Gap)
    requires LawfulDoc(rt, item) && Stands(text, pos, DocText(item))
    requires var end := pos + |DocText(item)|;
             && WordEnds(text, end) && LawfulGap(gap) && Stands(text, end, GapText(gap))
             && end + |GapText(gap)| < |text|
             && var c := text[end + |GapText(gap)|];
                !IsSpace(c) && c !in {0x2F, 0x23, 0x2C, 0x3B, 0x5D}
    ensures Items(rt, text, pos, items, trailing) == Fail(UnterminatedArray)
  {
    hide DocText, Stands, DocValue, NextValue, LawfulDoc, GapText, LawfulGap, NextClean, WordEnds;
    DocReads(rt, text, pos, item);
    DocStarts(rt, item);
    FirstOf(text, pos, DocText(item));
    CleanCharacter(text, pos);
    var end := pos + |DocText(item)|;
    GapSkipped(text, end, gap);
    CleanCharacter(text, end + |GapText(gap)|);
    var clean := NextClean(text, end);
    assert !SeparatesItem(clean.value);
  }

  /** A text that ends where a value, an item or the rest of a string should come. */
  lemma NothingAtTheEnd(
    rt: Runtime, text: Text, pos: nat, gap: Gap, items: seq<JsonValue>, trailing: bool)
    requires LawfulGap(gap) && Stands(text, pos, GapText(gap)) && pos + |GapText(gap)| == |text|
    ensures NextValue(rt, text, pos) == Fail(EndOfInput)
    ensures Items(rt, text, pos, items, trailing) == Fail(UnterminatedArray)
  {
    hide Stands, GapText, LawfulGap;
    GapSkipped(text, pos, gap);
  }

  lemma {:induction false} StringMustEnd(
    rt: Runtime, text: Text, pos: nat, quote: CodePoint, pieces: seq<Piece>, read: Text)
    requires LawfulPieces(quote, pieces) && Stands(text, pos, PiecesText(pieces))
    requires pos + |PiecesText(pieces)| == |text|
    ensures StringBody(rt, text, pos, quote, read) == Fail(UnterminatedString)
    decreases |pieces|
  {
    hide Stands, PieceText, PieceValue, LawfulPiece;
    if pieces != [] {
      hide StringBody;
      StandsSplit(text, pos, PieceText(pieces[0]), PiecesText(pieces[1..]));
      PieceRead(rt, text, pos, quote, pieces[0], read);
      StringMustEnd(rt, text, pos + |PieceText(pieces[0])|, quote, pieces[1..],
                    read + [PieceValue(pieces[0])]);
    }
  }

  /** An escape that the end of the text cuts off, or whose four characters stand for nothing. */
  lemma {:induction false} EscapeMustBeWhole(
    rt: Runtime, text: Text, pos: nat, quote: CodePoint, pieces: seq<Piece>, read: Text)
    requires LawfulPieces(quote, pieces) && Stands(text, pos, PiecesText(pieces))
    ensures var end := pos + |PiecesText(pieces)|;
            && (end + 1 == |text| && text[end] == 0x5C ==>
                  StringBody(rt, text, pos, quote, read) == Fail(UnterminatedEscape))
            && (end + 1 < |text| < end + 6 && text[end] == 0x5C && text[end + 1] == 0x75 ==>
                  StringBody(rt, text, pos, quote, read) == Fail(UnterminatedEscape))
            && (end + 6 <= |text| && text[end] == 0x5C && text[end + 1] == 0x75
                && !AllDigits(text[end + 2..end + 6], 16)
                && rt.laxEscape(text[end + 2..end + 6]) == None ==>
                  StringBody(rt, text, pos, quote, read) == Fail(InvalidEscape))
    decreases |pieces|
  {
    hide Stands, PieceText, PieceValue, LawfulPiece;
    if pieces != [] {
      hide StringBody, ReadEscape;
      StandsSplit(text, pos, PieceText(pieces[0]), PiecesText(pieces[1..]));
      PieceRead(rt, text, pos, quote, pieces[0], read);
      EscapeMustBeWhole(rt, text, pos + |PieceText(pieces[0])|, quote, pieces[1..],
                        read + [PieceValue(pieces[0])]);
    }
  }

  /** What ends a word: a blank or another space, a bracket or a brace, a stroke either way, and the
      signs for separators, delimiters and comments. */
  lemma EndsWordIff(c: CodePoint)
    ensures EndsLiteral(c) <==>
              c in {0x09, 0x0A, 0x0C, 0x0D, 0x20, 0x23, 0x2C, 0x2F, 0x3A, 0x3B, 0x3D, 0x5B, 0x5C, 0x5D,
                    0x7B, 0x7D}
  {
  }

  lemma {:induction false} NoCommentEnd(text: Text, pos: nat)
    requires forall i :: pos <= i < |text| - 1 ==> !(text[i] == 0x2A && text[i + 1] == 0x2F)
    ensures FindCommentEnd(text, pos) == None
    decreases |text| - pos
  {
    if pos + 2 <= |text| {
      NoCommentEnd(text, pos + 1);
    }
  }

  lemma CommentMustEnd(rt: Runtime, text: Text, pos: nat)
    requires pos + 1 < |text| && text[pos] == 0x2F && text[pos + 1] == 0x2A
    requires forall i :: pos + 2 <= i < |text| - 1 ==> !(text[i] == 0x2A && text[i + 1] == 0x2F)
    ensures NextValue(rt, text, pos) == Fail(UnterminatedComment)
  {
    NoCommentEnd(text, pos + 2);
    hide FindCommentEnd;
  }

  // ------------------------------------------------------------------------------------------
  // Floating-point numbers as they are printed
  // ------------------------------------------------------------------------------------------

  function Characters(s: Text): seq<Piece> {
    seq(|s|, i requires 0 <= i < |s| => Char(s[i]))
  }

  lemma {:induction false} CharactersText(s: Text)
    ensures PiecesText(Characters(s)) == s && PiecesValue(Characters(s)) == s
  {
    if s != [] {
      CharactersText(s[1..]);
      assert Characters(s)[0] == Char(s[0]) && Characters(s)[1..] == Characters(s[1..]);
    }
  }

  lemma SerializedOne(key: Text, token: Text)
    ensures Serialized([DpEntry(key, DpFloat(token))])
         == [0x7B] + ([0x22] + (key + [0x22]) + ([0x3A] + (token + [0x7D])))
  {
  }

  /** An object with a single member and nothing in its gaps. */
  lemma OneField(rt: Runtime, name: Doc, value: Doc)
    requires LawfulDoc(rt, name) && LawfulDoc(rt, value) && DocValue(rt, name).JString?
    requires DocText(value)[..1] != [0x3E]
    ensures var m := Field([], name, [], false, false, [], value, [], false);
            && LawfulMembers(rt, [m])
            && MembersText([m]) == DocText(name) + ([0x3A] + (DocText(value) + [0x7D]))
            && MembersValue(rt, [m], []) == [Entry(DocValue(rt, name).text, DocValue(rt, value))]
  {
    hide DocText, LawfulDoc, DocValue, MembersText;
    var m := Field([], name, [], false, false, [], value, [], false);
    MembersUnfold([m]);
    TailUnfolds([m]);
    assert GapText([]) + DocText(value) == DocText(value);
    assert MembersValue(rt, [], [Entry(DocValue(rt, name).text, DocValue(rt, value))])
        == [Entry(DocValue(rt, name).text, DocValue(rt, value))];
  }

  lemma {:induction false} CharactersLawful(s: Text)
    requires Plain(s)
    ensures LawfulPieces(0x22, Characters(s))
  {
    if s != [] {
      CharactersLawful(s[1..]);
      assert Characters(s)[0] == Char(s[0]) && Characters(s)[1..] == Characters(s[1..]);
    }
  }

  lemma NameIs(rt: Runtime, key: Text)
    requires Plain(key)
    ensures LawfulDoc(rt, Quoted(0x22, Characters(key)))
    ensures DocText(Quoted(0x22, Characters(key))) == [0x22] + (key + [0x22])
    ensures DocValue(rt, Quoted(0x22, Characters(key))) == JString(key)
  {
    CharactersText(key);
    CharactersLawful(key);
  }

  lemma TokenIs(rt: Runtime, token: Text)
    requires LawfulToken(Other(token)) && rt.isDouble(token)
    ensures LawfulDoc(rt, Bare(Other(token))) && DocText(Bare(Other(token))) == token
    ensures DocValue(rt, Bare(Other(token))) == JDouble(token)
  {
  }

  /** A printed floating-point number is read as the number of its token. */
  lemma FloatReadsBack(rt: Runtime, key: Text, token: Text)
    requires Plain(key) && LawfulToken(Other(token)) && rt.isDouble(token) && token[0] != 0x3E
    ensures var text := Serialized([DpEntry(key, DpFloat(token))]);
            ParseObject(rt, text) == Done(JObject([Entry(key, JDouble(token))]), |text|)
  {
    var name, value := Quoted(0x22, Characters(key)), Bare(Other(token));
    var m := Field([], name, [], false, false, [], value, [], false);
    NameIs(rt, key);
    TokenIs(rt, token);
    SerializedOne(key, token);
    OneField(rt, name, value);
    ObjectUnfolds([], [m]);
    var body := DocText(Object([], [m]));
    assert body == Serialized([DpEntry(key, DpFloat(token))]);
    assert [] + (GapText([]) + (body + [])) == body;
    TextParses(rt, false, [], [], [m], []);
  }
}
