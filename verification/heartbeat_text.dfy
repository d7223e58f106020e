/** What a reader of a heartbeat body finds in it. */
module HeartbeatText {
  import opened Wrappers
  import opened JsonReader
  import opened JsonText
  import opened EventRows
  import opened EventQueue
  import opened HeartbeatBody

  // ---- Strings and numbers ----

  lemma HexDigits(a: nat, b: nat, c: nat, d: nat, rest: string)
    requires a < 16 && b < 16 && c < 16 && d < 16
    ensures Hex4(['\\', 'u', Digit(a), Digit(b), Digit(c), Digit(d)] + rest)
         == Some((a * 16 + b) * 0x100 + (c * 16 + d))
  {
    var t := ['\\', 'u', Digit(a), Digit(b), Digit(c), Digit(d)] + rest;
    assert t[2] == Digit(a) && t[3] == Digit(b) && t[4] == Digit(c) && t[5] == Digit(d);
    HexBack(a);
    HexBack(b);
    HexBack(c);
    HexBack(d);
  }

  lemma FourDigits(n: nat)
    requires n < 0x10000
    ensures (n / 0x1000 * 16 + n / 0x100 % 16) * 0x100 + (n / 16 % 16 * 16 + n % 16) == n
  {
  }

  lemma ReadUnicodeBack(n: nat, rest: string)
    requires n < 0x10000
    ensures Hex4(UnicodeEscape(n) + rest) == Some(n)
  {
    HexDigits(n / 0x1000, n / 0x100 % 16, n / 16 % 16, n % 16, rest);
    FourDigits(n);
  }

  lemma HexBack(d: nat)
    requires d < 16
    ensures HexValue(Digit(d)) == Some(d)
  {
  }

  lemma ReadSurrogatesBack(n: nat, rest: string)
    requires 0x10000 <= n < 0x110000
    ensures ReadChar(SurrogateEscape(n) + rest) == Some((n as char, 12))
  {
    var high, low := 0xd800 + (n - 0x10000) / 0x400, 0xdc00 + (n - 0x10000) % 0x400;
    var t := SurrogateEscape(n) + rest;
    assert t == UnicodeEscape(high) + (UnicodeEscape(low) + rest);
    assert t[6..] == UnicodeEscape(low) + rest;
    ReadUnicodeBack(high, UnicodeEscape(low) + rest);
    ReadUnicodeBack(low, rest);
  }

  lemma ReadCharBack(c: char, rest: string)
    ensures EscapeChar(c)[0] != '"' && ReadChar(EscapeChar(c) + rest) == Some((c, |EscapeChar(c)|))
  {
    var n := c as int;
    if !Short(n) && !(32 <= n <= 126) {
      if n < 0x10000 { ReadUnicodeBack(n, rest); } else { ReadSurrogatesBack(n, rest); }
    }
  }

  /** A quoted string reads back, and ends at its own quote. */
  lemma {:induction false} ReadEscapedText(s: string, rest: string)
    ensures ReadString(Escape(s) + (['"'] + rest)) == Some((s, rest))
  {
    var t := Escape(s) + (['"'] + rest);
    if s == [] {
      assert t == ['"'] + rest;
    } else {
      var e, more := EscapeChar(s[0]), Escape(s[1..]) + (['"'] + rest);
      assert t == e + more;
      ReadCharBack(s[0], more);
      assert t[|e|..] == more;
      ReadEscapedText(s[1..], rest);
      assert s == [s[0]] + s[1..];
    }
  }

  /** What a string cannot hold is written as a short escape where JSON has one. */
  lemma ShortEscapes()
    ensures EscapeChar('"') == "\\\"" && EscapeChar('\\') == "\\\\" && EscapeChar(8 as char) == "\\b"
    ensures EscapeChar('\n') == "\\n" && EscapeChar('\r') == "\\r" && EscapeChar('\t') == "\\t"
    ensures EscapeChar(12 as char) == "\\f" && EscapeChar('~') == "~" && EscapeChar(' ') == " "
  {
  }

  /** Other characters outside printable ASCII are written in lower-case hexadecimal. */
  lemma LongEscapes()
    ensures EscapeChar(31 as char) == "\\u001f" && EscapeChar(127 as char) == "\\u007f"
    ensures EscapeChar(0xe9 as char) == "\\u00e9"
  {
  }

  /** Numbers are written without a sign for zero, and with one below it. */
  lemma SignsAre()
    ensures Decimal(0) == "0" && Decimal(-7) == "-7" && Decimal(12) == "12"
  {
    assert Digits(12) == Digits(1) + [Digit(2)];
  }

  predicate NoDigit(t: string) { t == [] || !IsDigit(t[0]) }

  lemma {:induction false} RunOfDigits(ds: string, rest: string)
    requires NoDigit(rest) && forall i | 0 <= i < |ds| :: IsDigit(ds[i])
    ensures Run(ds + rest) == |ds|
  {
    if ds == [] {
      assert ds + rest == rest;
    } else {
      assert (ds + rest)[1..] == ds[1..] + rest;
      RunOfDigits(ds[1..], rest);
    }
  }

  lemma {:induction false} DigitsBack(n: nat)
    ensures |Digits(n)| > 0 && (forall i | 0 <= i < |Digits(n)| :: IsDigit(Digits(n)[i]))
    ensures DecimalValue(Digits(n)) == n
  {
    if n >= 10 {
      DigitsBack(n / 10);
      assert Digits(n)[..|Digits(n)| - 1] == Digits(n / 10);
    } else {
      assert [Digit(n)][..0] == [];
    }
  }

  lemma ReadNaturalBack(n: nat, rest: string)
    requires NoDigit(rest)
    ensures ReadNatural(Digits(n) + rest) == Some((n, rest))
  {
    DigitsBack(n);
    RunOfDigits(Digits(n), rest);
    assert (Digits(n) + rest)[..|Digits(n)|] == Digits(n) && (Digits(n) + rest)[|Digits(n)|..] == rest;
  }

  lemma ReadNumberBack(n: int, rest: string)
    requires NoDigit(rest)
    ensures ReadNumber(Decimal(n) + rest) == Some((n, rest))
  {
    if n < 0 { ReadNegative(-n, rest); } else { ReadPositive(n, rest); }
  }

  lemma ReadNegative(n: nat, rest: string)
    requires NoDigit(rest)
    ensures ReadNumber((['-'] + Digits(n)) + rest) == Some((0 - n, rest))
  {
    var t := Digits(n) + rest;
    assert (['-'] + Digits(n)) + rest == ['-'] + t;
    assert (['-'] + t)[1..] == t;
    ReadNaturalBack(n, rest);
  }

  lemma ReadPositive(n: nat, rest: string)
    requires NoDigit(rest)
    ensures ReadNumber(Digits(n) + rest) == Some((n, rest))
  {
    DigitsBack(n);
    ReadNaturalBack(n, rest);
    assert (Digits(n) + rest)[0] == Digits(n)[0] && IsDigit(Digits(n)[0]);
  }

  // ---- Members ----

  predicate IsGap(gap: string) { gap == "" || gap == " " }

  lemma GapSkipped(gap: string, t: string)
    requires IsGap(gap)
    ensures SkipSpaces(gap + t) == SkipSpaces(t)
  {
    if gap == " " { assert (gap + t)[1..] == t; } else { assert gap + t == t; }
  }

  predicate Plain(s: string) { forall i | 0 <= i < |s| :: 32 <= s[i] as int <= 126 && !Short(s[i] as int) }

  lemma {:induction false} PlainEscape(s: string)
    requires Plain(s)
    ensures Escape(s) == s
  {
    if s != [] {
      PlainEscape(s[1..]);
      assert s == [s[0]] + s[1..];
    }
  }

  /** A sign, a blank or none, a quoted name, a colon and a blank. */
  function Label(sign: char, gap: string, name: string): string { [sign] + gap + ['"'] + name + ['"', ':', ' '] }

  lemma ReadLabel(sign: char, gap: string, name: string, rest: string)
    requires !JsonSpace(sign) && IsGap(gap) && Plain(name)
    ensures ReadQuoted(Label(sign, gap, name) + rest, sign) == Some((name, [':', ' '] + rest))
  {
    var quoted := name + (['"'] + ([':', ' '] + rest));
    var body := gap + (['"'] + quoted);
    assert Label(sign, gap, name) + rest == [sign] + body;
    AfterSign(sign, body);
    GapSkipped(gap, ['"'] + quoted);
    AfterSign('"', quoted);
    PlainEscape(name);
    ReadEscapedText(name, [':', ' '] + rest);
  }

  lemma ColonRead(rest: string)
    ensures After([':', ' '] + rest, ':') == Some([' '] + rest)
  {
    assert [':', ' '] + rest == [':'] + ([' '] + rest);
    AfterSign(':', [' '] + rest);
  }

  lemma ReadTextMember(sign: char, gap: string, name: string, text: string, rest: string)
    requires !JsonSpace(sign) && IsGap(gap) && Plain(name)
    ensures ReadMember(Label(sign, gap, name) + (Quote(text) + rest), sign) == Some((Member(name, Text(text)), rest))
  {
    var value := Quote(text) + rest;
    ReadLabel(sign, gap, name, value);
    ColonRead(value);
    ReadQuote(text, rest);
  }

  lemma ReadQuote(text: string, rest: string)
    ensures ReadValue([' '] + (Quote(text) + rest)) == Some((Text(text), rest))
  {
    var value := Quote(text) + rest;
    assert value == ['"'] + (Escape(text) + (['"'] + rest));
    assert value[1..] == Escape(text) + (['"'] + rest);
    GapSkipped(" ", value);
    ReadEscapedText(text, rest);
  }

  lemma DecimalStarts(n: int, rest: string)
    ensures var t := Decimal(n) + rest; t != [] && !JsonSpace(t[0]) && t[0] != '"'
  {
    DigitsBack(if n < 0 then -n else n);
    if n >= 0 { assert IsDigit(Digits(n)[0]); }
  }

  lemma ReadNumberMember(sign: char, gap: string, name: string, n: int, rest: string)
    requires !JsonSpace(sign) && IsGap(gap) && Plain(name) && NoDigit(rest)
    ensures ReadMember(Label(sign, gap, name) + (Decimal(n) + rest), sign) == Some((Member(name, Number(n)), rest))
  {
    var value := Decimal(n) + rest;
    ReadLabel(sign, gap, name, value);
    ColonRead(value);
    GapSkipped(" ", value);
    DecimalStarts(n, rest);
    ReadNumberBack(n, rest);
  }

  // ---- Events ----

  /** The members of an event: `store` is there exactly when the event has one, even an empty one. */
  function MembersOf(k: Key, count: int): seq<Member> {
    [Member("level", Text(k.level)), Member("code", Text(k.code)), Member("message", Text(k.message)),
     Member("count", Number(count))]
    + match k.store case Some(store) => [Member("store", Text(store))] case None => []
  }

  function End(k: Key, rest: string): string { AfterCount(k) + rest }

  lemma ReadLast(t: string, sign: char, m: Member, more: string, rest: string)
    requires ReadMember(t, sign) == Some((m, more)) && |more| < |t| && After(more, '}') == Some(rest)
    ensures ReadMembers(t, sign) == Some(([m], rest))
  {
  }

  lemma ReadNext(t: string, sign: char, m: Member, more: string, members: seq<Member>, rest: string)
    requires ReadMember(t, sign) == Some((m, more)) && |more| < |t| && After(more, '}') == None
    requires ReadMembers(more, ',') == Some((members, rest))
    ensures ReadMembers(t, sign) == Some(([m] + members, rest))
  {
  }

  function StoreOf(k: Key): seq<Member> {
    match k.store case Some(store) => [Member("store", Text(store))] case None => []
  }

  lemma ReadEnd(k: Key, rest: string)
    ensures k.store.None? ==> After(End(k, rest), '}') == Some(rest)
    ensures k.store.Some? ==>
      After(End(k, rest), '}') == None && ReadMembers(End(k, rest), ',') == Some((StoreOf(k), rest))
    ensures NoDigit(End(k, rest))
  {
    if k.store.Some? {
      var more := ['}'] + rest;
      assert Label(',', " ", "store") == ", \"store\": ";
      assert End(k, rest) == Label(',', " ", "store") + (Quote(k.store.value) + more);
      ReadTextMember(',', " ", "store", k.store.value, more);
      AfterSign('}', rest);
      ReadLast(End(k, rest), ',', Member("store", Text(k.store.value)), more, rest);
    } else {
      assert End(k, rest) == ['}'] + rest;
      AfterSign('}', rest);
    }
  }

  lemma NotAtEnd(gap: string, name: string, rest: string)
    ensures After(Label(',', gap, name) + rest, '}') == None
  {
    assert (Label(',', gap, name) + rest)[0] == ',';
  }

  lemma ReadCount(k: Key, count: int, rest: string)
    ensures ReadMembers(Label(',', " ", "count") + (Decimal(count) + End(k, rest)), ',')
         == Some(([Member("count", Number(count))] + StoreOf(k), rest))
  {
    var t, m := Label(',', " ", "count") + (Decimal(count) + End(k, rest)), Member("count", Number(count));
    ReadEnd(k, rest);
    ReadNumberMember(',', " ", "count", count, End(k, rest));
    if k.store.None? {
      ReadLast(t, ',', m, End(k, rest), rest);
      assert [m] + StoreOf(k) == [m];
    } else {
      ReadNext(t, ',', m, End(k, rest), StoreOf(k), rest);
    }
  }

  /** A text member with more behind it. */
  lemma ReadMore(sign: char, gap: string, name: string, text: string, more: string, members: seq<Member>, rest: string)
    requires !JsonSpace(sign) && IsGap(gap) && Plain(name)
    requires After(more, '}') == None && ReadMembers(more, ',') == Some((members, rest))
    ensures ReadMembers(Label(sign, gap, name) + (Quote(text) + more), sign)
         == Some(([Member(name, Text(text))] + members, rest))
  {
    ReadTextMember(sign, gap, name, text, more);
    ReadNext(Label(sign, gap, name) + (Quote(text) + more), sign, Member(name, Text(text)), more, members, rest);
  }

  function CountMembers(k: Key, count: int): seq<Member> { [Member("count", Number(count))] + StoreOf(k) }

  function MessageMembers(k: Key, count: int): seq<Member> {
    [Member("message", Text(k.message))] + CountMembers(k, count)
  }

  function CodeMembers(k: Key, count: int): seq<Member> {
    [Member("code", Text(k.code))] + MessageMembers(k, count)
  }

  function FromCount(k: Key, count: int, rest: string): string {
    Label(',', " ", "count") + (Decimal(count) + End(k, rest))
  }

  function FromMessage(k: Key, count: int, rest: string): string {
    Label(',', " ", "message") + (Quote(k.message) + FromCount(k, count, rest))
  }

  function FromCode(k: Key, count: int, rest: string): string {
    Label(',', " ", "code") + (Quote(k.code) + FromMessage(k, count, rest))
  }

  function FromLevel(k: Key, count: int, rest: string): string {
    Label('{', "", "level") + (Quote(k.level) + FromCode(k, count, rest))
  }

  lemma ReadMessage(k: Key, count: int, rest: string)
    ensures ReadMembers(FromMessage(k, count, rest), ',') == Some((MessageMembers(k, count), rest))
  {
    ReadCount(k, count, rest);
    NotAtEnd(" ", "count", Decimal(count) + End(k, rest));
    ReadMore(',', " ", "message", k.message, FromCount(k, count, rest), CountMembers(k, count), rest);
  }

  lemma ReadCode(k: Key, count: int, rest: string)
    ensures ReadMembers(FromCode(k, count, rest), ',') == Some((CodeMembers(k, count), rest))
  {
    ReadMessage(k, count, rest);
    NotAtEnd(" ", "message", Quote(k.message) + FromCount(k, count, rest));
    ReadMore(',', " ", "code", k.code, FromMessage(k, count, rest), MessageMembers(k, count), rest);
  }

  lemma MembersInTurn(k: Key, count: int)
    ensures MembersOf(k, count) == [Member("level", Text(k.level))] + CodeMembers(k, count)
  {
  }

  /** An event reads back as its members, in order. */
  lemma ReadEvent(k: Key, count: int, rest: string)
    ensures ReadMembers(Dumps(k, count) + rest, '{') == Some((MembersOf(k, count), rest))
  {
    ReadCode(k, count, rest);
    NotAtEnd(" ", "code", Quote(k.code) + FromMessage(k, count, rest));
    ReadMore('{', "", "level", k.level, FromCode(k, count, rest), CodeMembers(k, count), rest);
    MembersInTurn(k, count);
    DumpsParts(k, count, rest);
  }

  lemma LabelsAre()
    ensures Label('{', "", "level") == "{\"level\": " && Label(',', " ", "code") == ", \"code\": "
    ensures Label(',', " ", "message") == ", \"message\": " && Label(',', " ", "count") == ", \"count\": "
  {
  }

  lemma EightParts(a: string, q: string, b: string, r: string, c: string, s: string, d: string, n: string, e: string,
                   rest: string)
    ensures ((a + q + b + r + c + s + d) + n + e) + rest
         == a + (q + (b + (r + (c + (s + (d + (n + (e + rest))))))))
  {
    assert ((a + q + b + r + c + s + d) + n + e) + rest == (a + q + b + r) + (c + s + d + (n + (e + rest)));
    assert c + s + d + (n + (e + rest)) == c + (s + (d + (n + (e + rest))));
    var more := c + (s + (d + (n + (e + rest))));
    assert (a + q + b + r) + more == a + (q + (b + (r + more)));
  }

  lemma DumpsParts(k: Key, count: int, rest: string)
    ensures Dumps(k, count) + rest == FromLevel(k, count, rest)
  {
    LabelsAre();
    EightParts("{\"level\": ", Quote(k.level), ", \"code\": ", Quote(k.code), ", \"message\": ", Quote(k.message),
               ", \"count\": ", Decimal(count), AfterCount(k), rest);
  }

  // ---- The events of a body ----

  function EventsOf(es: seq<Row>): seq<seq<Member>> {
    seq(|es|, i requires 0 <= i < |es| => MembersOf(es[i].key, es[i].count))
  }

  function Texts(es: seq<Row>): seq<string> {
    seq(|es|, i requires 0 <= i < |es| => Dumps(es[i].key, es[i].count))
  }

  function JoinTexts(ts: seq<string>): string {
    if ts == [] then [] else JoinTexts(ts[..|ts| - 1]) + (if |ts| > 1 then [',', ' '] else []) + ts[|ts| - 1]
  }

  lemma {:induction false} JoinIsTexts(es: seq<Row>)
    ensures Join(es) == JoinTexts(Texts(es))
  {
    if es != [] {
      JoinIsTexts(es[..|es| - 1]);
      assert Texts(es)[..|es| - 1] == Texts(es[..|es| - 1]);
    }
  }

  lemma JoinOne(t: string)
    ensures JoinTexts([t]) == t
  {
    assert [t][..0] == [];
  }

  lemma JoinLast(ts: seq<string>, t: string)
    requires ts != []
    ensures JoinTexts(ts + [t]) == JoinTexts(ts) + [',', ' '] + t
  {
    assert (ts + [t])[..|ts|] == ts;
  }

  lemma Regroup(a: string, b: string, c: string, d: string, e: string)
    ensures (a + (b + c)) + d + e == a + (b + (c + d + e))
  {
  }

  /** The joined texts from the front: the first one, and the others behind a separator. */
  lemma {:induction false} JoinFront(first: string, ts: seq<string>)
    requires ts != []
    ensures JoinTexts([first] + ts) == first + ([',', ' '] + JoinTexts(ts))
  {
    var init, last := ts[..|ts| - 1], ts[|ts| - 1];
    assert ts == init + [last] && [first] + ts == ([first] + init) + [last];
    JoinLast([first] + init, last);
    JoinOne(first);
    if init == [] {
      assert [first] + init == [first] && init + [last] == [last];
      JoinOne(last);
    } else {
      JoinFront(first, init);
      JoinLast(init, last);
      Regroup(first, [',', ' '], JoinTexts(init), [',', ' '], last);
    }
  }

  lemma ReadGap(gap: string, t: string, sign: char)
    requires IsGap(gap)
    ensures After(gap + t, sign) == After(t, sign)
  {
    GapSkipped(gap, t);
  }

  /** The object behind a blank or none. */
  lemma ReadObject(gap: string, t: string, members: seq<Member>, rest: string)
    requires IsGap(gap) && ReadMembers(t, '{') == Some((members, rest))
    ensures ReadMembers(gap + t, '{') == Some((members, rest))
  {
    ReadGap(gap, t, '{');
    assert ReadMember(gap + t, '{') == ReadMember(t, '{');
  }

  lemma ReadLastObject(t: string, sign: char, body: string, o: seq<Member>, more: string, rest: string)
    requires After(t, sign) == Some(body) && ReadMembers(body, '{') == Some((o, more)) && |more| < |t|
    requires After(more, ']') == Some(rest)
    ensures ReadObjects(t, sign) == Some(([o], rest))
  {
  }

  lemma ReadNextObject(t: string, sign: char, body: string, o: seq<Member>, more: string, os: seq<seq<Member>>,
                       rest: string)
    requires After(t, sign) == Some(body) && ReadMembers(body, '{') == Some((o, more)) && |more| < |t|
    requires After(more, ']') == None && ReadObjects(more, ',') == Some((os, rest))
    ensures ReadObjects(t, sign) == Some(([o] + os, rest))
  {
  }

  /** Whatever follows, the text is an object with these members. */
  ghost predicate ReadsAs(t: string, o: seq<Member>) {
    t != "" && t[0] == '{' && forall rest: string :: ReadMembers(t + rest, '{') == Some((o, rest))
  }

  lemma ReadSingle(sign: char, gap: string, t: string, o: seq<Member>, rest: string)
    requires !JsonSpace(sign) && IsGap(gap) && ReadsAs(t, o)
    ensures ReadObjects([sign] + (gap + (t + ([']'] + rest))), sign) == Some(([o], rest))
  {
    var end := [']'] + rest;
    var body := gap + (t + end);
    AfterSign(sign, body);
    ReadObject(gap, t + end, o, end);
    AfterSign(']', rest);
    ReadLastObject([sign] + body, sign, body, o, end, rest);
  }

  lemma ReadFirst(sign: char, gap: string, t: string, o: seq<Member>, more: string, os: seq<seq<Member>>, rest: string)
    requires !JsonSpace(sign) && IsGap(gap) && ReadsAs(t, o)
    requires more != "" && more[0] == ',' && ReadObjects(more, ',') == Some((os, rest))
    ensures ReadObjects([sign] + (gap + (t + more)), sign) == Some(([o] + os, rest))
  {
    var body := gap + (t + more);
    AfterSign(sign, body);
    ReadObject(gap, t + more, o, more);
    ReadNextObject([sign] + body, sign, body, o, more, os, rest);
  }

  lemma Separated(t: string, joined: string, end: string)
    ensures (t + ([',', ' '] + joined)) + end == t + ([','] + ([' '] + (joined + end)))
  {
  }

  lemma {:induction false} ReadTexts(sign: char, gap: string, ts: seq<string>, os: seq<seq<Member>>, rest: string)
    requires ts != [] && |os| == |ts| && !JsonSpace(sign) && IsGap(gap)
    requires forall i | 0 <= i < |ts| :: ReadsAs(ts[i], os[i])
    ensures ReadObjects([sign] + (gap + (JoinTexts(ts) + ([']'] + rest))), sign) == Some((os, rest))
    decreases |ts|
  {
    var end := [']'] + rest;
    if |ts| == 1 {
      assert ts == [ts[0]] && os == [os[0]];
      JoinOne(ts[0]);
      ReadSingle(sign, gap, ts[0], os[0], rest);
    } else {
      assert ts == [ts[0]] + ts[1..] && os == [os[0]] + os[1..];
      ReadTexts(',', " ", ts[1..], os[1..], rest);
      JoinFront(ts[0], ts[1..]);
      Separated(ts[0], JoinTexts(ts[1..]), end);
      ReadFirst(sign, gap, ts[0], os[0], [','] + (" " + (JoinTexts(ts[1..]) + end)), os[1..], rest);
    }
  }

  lemma EventsRead(es: seq<Row>, i: nat)
    requires i < |es|
    ensures ReadsAs(Texts(es)[i], EventsOf(es)[i])
  {
    var k, count := es[i].key, es[i].count;
    forall rest: string ensures ReadMembers(Dumps(k, count) + rest, '{') == Some((MembersOf(k, count), rest)) {
      ReadEvent(k, count, rest);
    }
    DumpsOpens(k, count);
  }

  lemma DumpsOpens(k: Key, count: int)
    ensures Dumps(k, count) != "" && Dumps(k, count)[0] == '{'
  {
  }

  lemma {:induction false} JoinOpens(ts: seq<string>)
    requires ts != [] && ts[0] != "" && ts[0][0] == '{'
    ensures JoinTexts(ts) != "" && JoinTexts(ts)[0] == '{'
  {
    if |ts| == 1 {
      assert ts == [ts[0]];
      JoinOne(ts[0]);
    } else {
      assert ts == [ts[0]] + ts[1..];
      JoinFront(ts[0], ts[1..]);
    }
  }

  lemma ReadSomeOf(ts: seq<string>, os: seq<seq<Member>>, body: string, rest: string)
    requires ts != [] && |os| == |ts| && forall i | 0 <= i < |ts| :: ReadsAs(ts[i], os[i])
    requires body == JoinTexts(ts) + ([']'] + rest)
    ensures ReadObjects(['['] + body, '[') == Some((os, rest)) && body != "" && body[0] == '{'
  {
    assert "" + body == body;
    ReadTexts('[', "", ts, os, rest);
    assert ReadsAs(ts[0], os[0]);
    JoinOpens(ts);
  }

  /** An array of texts of objects reads as those objects. */
  lemma ReadArrayOf(ts: seq<string>, os: seq<seq<Member>>, rest: string)
    requires |os| == |ts| && forall i | 0 <= i < |ts| :: ReadsAs(ts[i], os[i])
    ensures ReadArray(['['] + (JoinTexts(ts) + ([']'] + rest))) == Some((os, rest))
  {
    var body := JoinTexts(ts) + ([']'] + rest);
    AfterSign('[', body);
    if ts == [] {
      assert body == [']'] + rest && os == [];
      AfterSign(']', rest);
    } else {
      ReadSomeOf(ts, os, body, rest);
    }
  }

  /** After the envelope, a body is an array of exactly the events, in order, and a closing brace. */
  lemma BodyReadsBack(envelope: string, es: seq<Row>)
    ensures envelope <= Body(envelope, es)
    ensures ReadArray(Body(envelope, es)[|envelope|..]) == Some((EventsOf(es), "}"))
  {
    JoinIsTexts(es);
    forall i | 0 <= i < |es| ensures ReadsAs(Texts(es)[i], EventsOf(es)[i]) { EventsRead(es, i); }
    ReadArrayOf(Texts(es), EventsOf(es), "}");
    BodyParts(envelope, es);
  }

  lemma BodyParts(envelope: string, es: seq<Row>)
    ensures Body(envelope, es) == envelope + (['['] + (Join(es) + ([']'] + "}")))
  {
    Bracketed(envelope, Join(es));
  }

  lemma Bracketed(a: string, b: string)
    ensures a + ['['] + b + [']', '}'] == a + (['['] + (b + ([']'] + "}")))
  {
  }

  // ---- Counting what was posted ----

  /** The value of a member. */
  function Field(o: seq<Member>, name: string): Option<Value> {
    if o == [] then None else if o[0].name == name then Some(o[0].value) else Field(o[1..], name)
  }

  /** The object is an event of this level, code, message and store; no store and an empty one differ. */
  predicate IsEventOf(o: seq<Member>, k: Key) {
    && Field(o, "level") == Some(Text(k.level)) && Field(o, "code") == Some(Text(k.code))
    && Field(o, "message") == Some(Text(k.message))
    && Field(o, "store") == match k.store case Some(store) => Some(Text(store)) case None => None
  }

  function CountOf(o: seq<Member>): int {
    match Field(o, "count") case Some(Number(n)) => n case _ => 0
  }

  /** The events of one key add up to this. */
  function CountIn(os: seq<seq<Member>>, k: Key): int {
    if os == [] then 0
    else CountIn(os[..|os| - 1], k) + if IsEventOf(os[|os| - 1], k) then CountOf(os[|os| - 1]) else 0
  }

  /** What a reader of a body counts for a key. */
  function CountRead(envelope: string, body: string, k: Key): int {
    if !(envelope <= body) then 0
    else match ReadArray(body[|envelope|..]) case Some((os, _)) => CountIn(os, k) case None => 0
  }

  lemma FieldsBack(k: Key, count: int)
    ensures var o := MembersOf(k, count);
            && Field(o, "level") == Some(Text(k.level)) && Field(o, "code") == Some(Text(k.code))
            && Field(o, "message") == Some(Text(k.message)) && Field(o, "count") == Some(Number(count))
            && Field(o, "store") == match k.store case Some(store) => Some(Text(store)) case None => None
  {
    var o := MembersOf(k, count);
    assert o[1..][1..] == o[2..] && o[2..][1..] == o[3..] && o[3..][1..] == o[4..];
    assert Field(o, "count") == Field(o[1..], "count") == Field(o[2..], "count") == Field(o[3..], "count");
    assert Field(o, "message") == Field(o[1..], "message") == Field(o[2..], "message");
    assert Field(o, "store") == Field(o[1..], "store") == Field(o[2..], "store") == Field(o[3..], "store")
        == Field(o[4..], "store");
    if k.store.Some? { assert o[4..] == [Member("store", Text(k.store.value))]; } else { assert o[4..] == []; }
  }

  lemma EventOfItsKey(k: Key, count: int, key: Key)
    ensures IsEventOf(MembersOf(k, count), key) <==> k == key
    ensures CountOf(MembersOf(k, count)) == count
  {
    FieldsBack(k, count);
  }

  lemma {:induction false} EventsCount(es: seq<Row>, k: Key)
    ensures CountIn(EventsOf(es), k) == SumOf(es, k)
  {
    if es != [] {
      var init, last := es[..|es| - 1], es[|es| - 1];
      EventsCount(init, k);
      EventOfItsKey(last.key, last.count, k);
      assert EventsOf(es)[..|es| - 1] == EventsOf(init);
    }
  }

  /** A reader of a body counts for each key what its events carry. */
  lemma BodyCounts(envelope: string, es: seq<Row>, k: Key)
    ensures CountRead(envelope, Body(envelope, es), k) == SumOf(es, k)
  {
    BodyReadsBack(envelope, es);
    EventsCount(es, k);
  }
}
