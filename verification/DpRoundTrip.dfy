/** The exact condition under which one printed data point survives parsing: since the printer does
    not escape, a quote or a backslash in a key or a string always changes what is read. */
module DpRoundTrip {
  import opened Options
  import opened JsonText
  import opened DpString
  import opened DpPrinter

  /** No spelling of a unicode escape contains a quote. */
  ghost predicate LawfulEscapes(rt: Runtime) {
    forall hex: Text :: |hex| == 4 && QUOTE in hex ==> rt.laxEscape(hex).None?
  }

  lemma {:induction false} PlainPrefixRead(
    rt: Runtime, text: Text, pos: nat, s: Text, read: Text)
    requires Plain(s) && Stands(text, pos, s)
    ensures StringBody(rt, text, pos, QUOTE, read)
         == StringBody(rt, text, pos + |s|, QUOTE, read + s)
    decreases |s|
  {
    if s == [] {
      assert read + s == read;
    } else {
      assert s == [s[0]] + s[1..];
      StandsSplit(text, pos, [s[0]], s[1..]);
      StandsCharacter(text, pos, s[0]);
      PlainPrefixRead(rt, text, pos + 1, s[1..], read + [s[0]]);
      assert read + [s[0]] + s[1..] == read + s;
    }
  }

  /** An escape that reaches over a quote yields that quote or fails. */
  lemma EscapeOverQuote(rt: Runtime, text: Text, pos: nat, end: nat)
    requires LawfulEscapes(rt) && pos <= end < |text| && text[end] == QUOTE
    requires forall i :: pos <= i < end ==> text[i] != QUOTE
    ensures var r := ReadEscape(rt, text, pos);
            r.Done? && r.pos > end ==> r.value == QUOTE && r.pos == end + 1
  {
    if pos < end && text[pos] == 0x75 && pos + 5 <= |text| && end < pos + 5 {
      var hex := text[pos + 1..pos + 5];
      assert hex[end - pos - 1] == QUOTE;
      assert !AllDigits(hex, 16);
    }
  }

  /** Once the reader lags behind the text, which one escape makes it do for good, the first quote
      in the text either ends the string too early or is read into it too early. */
  lemma {:induction false} Lagging(
    rt: Runtime, text: Text, pos: nat, end: nat, read: Text, q: nat)
    requires LawfulEscapes(rt) && pos <= end < |text| && text[end] == QUOTE
    requires forall i :: pos <= i < end ==> text[i] != QUOTE
    requires |read| + (end - pos) <= q
    requires |read| + (end - pos) == q ==> text[pos] == BACKSLASH
    ensures var r := StringBody(rt, text, pos, QUOTE, read);
            r.Done? && |r.value| >= q ==> QUOTE in r.value[..q]
    decreases |text| - pos
  {
    if pos == end {
      return;
    }
    if text[pos] == BACKSLASH {
      var e := ReadEscape(rt, text, pos + 1);
      EscapeOverQuote(rt, text, pos + 1, end);
      if e.Done? && e.pos <= end {
        Lagging(rt, text, e.pos, end, read + [e.value], q);
      } else if e.Done? {
        var r := StringBody(rt, text, e.pos, QUOTE, read + [e.value]);
        if r.Done? && |r.value| >= q {
          assert r.value[|read|] == (read + [e.value])[|read|] == QUOTE;
          assert r.value[..q][|read|] == QUOTE;
        }
      }
    } else {
      Lagging(rt, text, pos + 1, end, read + [text[pos]], q);
    }
  }

  /** The first character that needs escaping. */
  lemma FirstSpecial(s: Text) returns (j: nat)
    requires !Plain(s)
    ensures j < |s| && Plain(s[..j]) && (s[j] == QUOTE || s[j] == BACKSLASH)
  {
    j := 0;
    while j < |s| && s[j] != QUOTE && s[j] != BACKSLASH
      invariant j <= |s| && Plain(s[..j])
    {
      assert s[..j + 1] == s[..j] + [s[j]];
      j := j + 1;
    }
    assert s[..|s|] == s;
  }

  lemma FirstQuote(text: Text, start: nat, last: nat) returns (end: nat)
    requires start <= last < |text| && text[last] == QUOTE
    ensures start <= end <= last && text[end] == QUOTE
    ensures forall i :: start <= i < end ==> text[i] != QUOTE
  {
    end := start;
    while text[end] != QUOTE
      invariant start <= end <= last
      invariant forall i :: start <= i < end ==> text[i] != QUOTE
      decreases last - end
    {
      end := end + 1;
    }
  }

  lemma StandsIndex(text: Text, pos: nat, s: Text, i: nat)
    requires Stands(text, pos, s) && i < |s|
    ensures pos + i < |text| && text[pos + i] == s[i]
  {
    assert text[pos..pos + |s|][i] == text[pos + i];
  }

  lemma BackslashMisread(rt: Runtime, text: Text, pos: nat, s: Text, j: nat)
    requires LawfulEscapes(rt) && Stands(text, pos, s)
    requires pos + |s| < |text| && text[pos + |s|] == QUOTE
    requires j < |s| && Plain(s[..j]) && s[j] == BACKSLASH
    ensures var r := StringBody(rt, text, pos + j, QUOTE, s[..j]);
            r.Done? ==> r.value != s
  {
    hide StringBody, Stands;
    StandsIndex(text, pos, s, j);
    var end := FirstQuote(text, pos + j, pos + |s|);
    var q := end - pos;
    Lagging(rt, text, pos + j, end, s[..j], q);
    forall i | 0 <= i < q ensures s[..q][i] != QUOTE {
      if i < j {
        assert s[..j][i] == s[i];
      } else {
        StandsIndex(text, pos, s, i);
      }
    }
  }

  lemma QuoteStops(rt: Runtime, text: Text, pos: nat, out: Text)
    requires pos < |text| && text[pos] == QUOTE
    ensures StringBody(rt, text, pos, QUOTE, out) == Done(out, pos + 1)
  {
  }

  lemma SpecialReached(rt: Runtime, text: Text, pos: nat, s: Text, j: nat)
    requires Stands(text, pos, s) && pos + |s| < |text| && j < |s| && Plain(s[..j])
    ensures StringBody(rt, text, pos, QUOTE, []) == StringBody(rt, text, pos + j, QUOTE, s[..j])
    ensures text[pos + j] == s[j]
  {
    hide Stands, StringBody;
    StandsIndex(text, pos, s, j);
    assert s == s[..j] + s[j..];
    StandsSplit(text, pos, s[..j], s[j..]);
    PlainPrefixRead(rt, text, pos, s[..j], []);
    assert [] + s[..j] == s[..j];
  }

  lemma SpecialMisread(rt: Runtime, text: Text, pos: nat, s: Text)
    requires LawfulEscapes(rt) && !Plain(s) && Stands(text, pos, s + [QUOTE])
    ensures var r := StringBody(rt, text, pos, QUOTE, []);
            r.Done? ==> r.value != s
  {
    hide Stands, StringBody;
    StandsSplit(text, pos, s, [QUOTE]);
    StandsCharacter(text, pos + |s|, QUOTE);
    var j := FirstSpecial(s);
    SpecialReached(rt, text, pos, s, j);
    if s[j] == BACKSLASH {
      BackslashMisread(rt, text, pos, s, j);
    } else {
      QuoteStops(rt, text, pos + j, s[..j]);
    }
  }

  /** A quoted string reads back as itself exactly when it needs no escaping. */
  lemma QuotedReadsBackIff(rt: Runtime, text: Text, pos: nat, s: Text)
    requires LawfulEscapes(rt) && Stands(text, pos, Quoted(s))
    ensures var r := NextString(rt, text, pos, QUOTE);
            r.Done? && r.value == s <==> Plain(s)
  {
    QuotedStarts(text, pos, s);
    if Plain(s) {
      PlainBodyReads(rt, text, pos + 1, s, []);
      assert [] + s == s;
    } else {
      SpecialMisread(rt, text, pos + 1, s);
    }
  }

  /** The first entry keeps its key, and its value can only be replaced by one that is read later. */
  lemma {:induction false} FirstEntryStays(
    rt: Runtime, text: Text, pos: nat, entries: seq<Entry>)
    requires entries != []
    ensures var r := Members(rt, text, pos, entries);
            r.Done? ==>
              && r.value.entries != []
              && var first := r.value.entries[0];
                 && first.key == entries[0].key
                 && (first.value == entries[0].value
                     || (first.value.JString? ==> |first.value.text| + 2 <= |text| - pos))
    decreases |text| - pos
  {
    hide NextValue, ReadObject, Items, Member;
    var m := Member(rt, text, pos);
    if m.Done? {
      var assignment := Assign(entries, m.value.key, m.value.value);
      var c := NextClean(text, m.pos);
      if c.Done? && c.value != CLOSE_BRACE && SeparatesItem(c.value) {
        FirstEntryStays(rt, text, c.pos + 1, assignment);
      }
    }
  }

  ghost predicate ReadsBack(rt: Runtime, e: DpEntry)
    requires !e.value.DpFloat?
  {
    var r := ParseObject(rt, Serialized([e]));
    r.Done? && r.value == JObject([Entry(e.key, Image(e.value))])
  }

  lemma MemberNamed(rt: Runtime, text: Text, pos: nat)
    ensures var m, name := Member(rt, text, pos), NextValue(rt, text, pos);
            m.Done? ==> name.Done? && name.value.JString? && m.value.key == name.value.text
  {
    hide NextValue, NextClean;
  }

  lemma NameDecidesFirstKey(rt: Runtime, text: Text, pos: nat)
    ensures var r, name := Members(rt, text, pos, []), NextValue(rt, text, pos);
            r.Done? ==>
              && name.Done? && name.value.JString?
              && r.value.entries != [] && r.value.entries[0].key == name.value.text
  {
    hide NextValue, NextClean, Member;
    MemberNamed(rt, text, pos);
    var m := Member(rt, text, pos);
    if m.Done? {
      var first := Assign([], m.value.key, m.value.value);
      var c := NextClean(text, m.pos);
      if c.Done? && c.value != CLOSE_BRACE && SeparatesItem(c.value) {
        FirstEntryStays(rt, text, c.pos + 1, first);
      }
    }
  }

  lemma UnplainKeyLost(rt: Runtime, e: DpEntry)
    requires LawfulEscapes(rt) && !e.value.DpFloat? && !Plain(e.key)
    ensures !ReadsBack(rt, e)
  {
    hide Members, ReadObject, Items;
    var text := Serialized([e]);
    SerializedLayout([e]);
    SerializedParses(rt, [e]);
    PairLayout(text, 1, e);
    QuotedReadsBackIff(rt, text, 1, e.key);
    NameDecidesFirstKey(rt, text, 1);
    CharacterNext(text, 1);
    assert NextValue(rt, text, 1).Done? ==>
        NextValue(rt, text, 1).value == JString(NextString(rt, text, 1, QUOTE).value);
  }

  /** If the value at hand is read as something else, no later member can put it right: a later
      string would have to be longer than the rest of the text. */
  lemma MisreadValueLost(rt: Runtime, e: DpEntry)
    requires Plain(e.key) && !e.value.DpFloat?
    requires var r := NextValue(rt, Serialized([e]), |e.key| + 4);
             r.Done? ==> r.value != Image(e.value)
    requires var r := NextValue(rt, Serialized([e]), |e.key| + 4);
             Image(e.value).JString? || (r.Done? ==> r.pos == |Serialized([e])| - 1)
    ensures !ReadsBack(rt, e)
  {
    hide NextValue, Member, Members, ReadObject, Items, NextClean, Stands, Pair;
    var text := Serialized([e]);
    SerializedLayout([e]);
    SerializedParses(rt, [e]);
    KeyReads(rt, text, 1, e);
    SerializedLength(e);
    var from := |e.key| + 4;
    var v := NextValue(rt, text, from);
    if v.Done? {
      var entry := Entry(e.key, v.value);
      MemberStep(rt, text, 1, e.key, |e.key| + 3, from, v.value, v.pos);
      AfterMember(rt, text, 1, entry, v.pos);
    } else {
      NoMember(rt, text, 1, e.key, |e.key| + 3, from);
    }
  }

  lemma SerializedLength(e: DpEntry)
    ensures |Serialized([e])| == |e.key| + |Rendered(e.value)| + 5
    ensures e.value.DpText? ==> |Rendered(e.value)| == |e.value.text| + 2
    ensures e.value.DpOther? ==> |Rendered(e.value)| == |e.value.repr| + 2
    ensures e.value.DpBytes? ==> |Rendered(e.value)| == |Base64(e.value.content)| + 2
    ensures Serialized([e])[|Serialized([e])| - 1] == CLOSE_BRACE
  {
    PairLength(e);
    assert Pairs([e]) == Pair(e);
  }

  lemma NoMember(rt: Runtime, text: Text, pos: nat, name: Text, at: nat, from: nat)
    requires NextValue(rt, text, pos) == Done(JString(name), at)
    requires Separator(text, at) == Done((), from)
    requires NextValue(rt, text, from).Fail?
    ensures Members(rt, text, pos, []).Fail?
  {
    hide ReadObject, Items, NextValue;
  }

  /** What the members can still make of a first member. */
  lemma AfterMember(rt: Runtime, text: Text, pos: nat, e: Entry, next: nat)
    requires Member(rt, text, pos) == Done(e, next)
    ensures var r := Members(rt, text, pos, []);
            r.Done? && r.value != JObject([e]) ==>
              && next + 1 < |text|
              && r.value.entries != []
              && var first := r.value.entries[0];
                 first.value == e.value
                 || (first.value.JString? ==> |first.value.text| + 2 <= |text| - (next + 1))
  {
    hide ReadObject, Items, NextValue, Member, NextClean;
    var c := NextClean(text, next);
    if c.Done? && c.value != CLOSE_BRACE && SeparatesItem(c.value) {
      FirstEntryStays(rt, text, c.pos + 1, [e]);
    }
  }

  /** One data point survives printing and parsing exactly when its key is plain and its value is a
      flag, a 64-bit integer, bytes, or a text without quotes and backslashes. */
  lemma SingleReadsBackIff(rt: Runtime, e: DpEntry)
    requires LawfulEscapes(rt) && !e.value.DpFloat?
    ensures ReadsBack(rt, e) <==> Plain(e.key) && Readable(e.value)
  {
    hide NextValue, Member, Members, ReadObject, Items;
    if !Plain(e.key) {
      UnplainKeyLost(rt, e);
    } else if Readable(e.value) {
      ParseUndoesPrint(rt, [e]);
      assert ImageMap([e]) == [Entry(e.key, Image(e.value))];
    } else {
      UnreadableValueMisread(rt, e);
      MisreadValueLost(rt, e);
    }
  }

  lemma MisreadInteger(rt: Runtime, text: Text, pos: nat, n: int)
    requires !IsLong(n) && Stands(text, pos, IntText(n))
    requires pos + |IntText(n)| < |text| && EndsLiteral(text[pos + |IntText(n)|])
    ensures var r := NextValue(rt, text, pos);
            r.Done? && r.value != JLong(n) && r.pos == pos + |IntText(n)|
  {
    hide NextValue, Classify, IntText, Stands;
    IntTextToken(n);
    IntTextClassified(rt, n);
    TokenReads(rt, text, pos, IntText(n));
  }

  lemma MisreadString(rt: Runtime, text: Text, pos: nat, s: Text)
    requires LawfulEscapes(rt) && !Plain(s) && Stands(text, pos, Quoted(s))
    ensures var r := NextValue(rt, text, pos);
            r.Done? ==> r.value != JString(s)
  {
    hide ReadObject, Items, StringBody, Stands;
    QuotedStarts(text, pos, s);
    QuotedReadsBackIff(rt, text, pos, s);
    CharacterNext(text, pos);
  }

  lemma UnreadableValueMisread(rt: Runtime, e: DpEntry)
    requires LawfulEscapes(rt) && !e.value.DpFloat? && Plain(e.key) && !Readable(e.value)
    ensures var text := Serialized([e]);
            var r := NextValue(rt, text, |e.key| + 4);
            && (r.Done? ==> r.value != Image(e.value))
            && (Image(e.value).JString? || (r.Done? ==> r.pos == |text| - 1))
  {
    hide NextValue, Pair, Pairs, Serialized, Stands;
    var text, at := Serialized([e]), |e.key| + 4;
    SerializedLayout([e]);
    PairLayout(text, 1, e);
    SerializedLength(e);
    match e.value
    case DpInt(n) => MisreadInteger(rt, text, at, n);
    case DpText(s) => MisreadString(rt, text, at, s);
    case DpOther(s) => MisreadString(rt, text, at, s);
  }
}
