/** A reference reader of JSON: strings with all their escapes, integers, objects of such members, and arrays of
    objects. */
module JsonReader {
  import opened Wrappers
  import opened Utf8Text

  function HexValue(c: char): Option<nat> {
    if '0' <= c <= '9' then Some(c as int - '0' as int)
    else if 'a' <= c <= 'f' then Some(c as int - 'a' as int + 10)
    else if 'A' <= c <= 'F' then Some(c as int - 'A' as int + 10) else None
  }

  /** The four hexadecimal digits of an escape. */
  function Hex4(t: string): Option<nat> {
    if |t| < 6 || HexValue(t[2]).None? || HexValue(t[3]).None? || HexValue(t[4]).None? || HexValue(t[5]).None? then None
    else
      var high := HexValue(t[2]).value * 16 + HexValue(t[3]).value;
      var low := HexValue(t[4]).value * 16 + HexValue(t[5]).value;
      Some(high * 0x100 + low)
  }

  function LowSurrogate(t: string): Option<nat> {
    if |t| >= 6 && t[0] == '\\' && t[1] == 'u' && Hex4(t).Some? && 0xdc00 <= Hex4(t).value < 0xe000 then
      Some(Hex4(t).value - 0xdc00)
    else None
  }

  /** A numeric escape; a high surrogate takes the low one after it along. */
  function ReadUnicode(t: string): Option<(char, nat)>
    requires |t| >= 2
  {
    var n := Hex4(t);
    if n.None? then None
    else if 0xd800 <= n.value < 0xdc00 then
      var low := LowSurrogate(t[6..]);
      if low.None? then None else Some(((0x10000 + (n.value - 0xd800) * 0x400 + low.value) as char, 12))
    else if ScalarValue(n.value) then Some((n.value as char, 6)) else None
  }

  /** The character at the start of a string's text, and how much text it takes. */
  function ReadChar(t: string): Option<(char, nat)>
    requires t != []
  {
    if t[0] != '\\' then if t[0] as int < 32 then None else Some((t[0], 1))
    else if |t| < 2 then None
    else if t[1] == 'u' then ReadUnicode(t)
    else if t[1] == '"' || t[1] == '\\' || t[1] == '/' then Some((t[1], 2))
    else if t[1] == 'n' then Some((10 as char, 2))
    else if t[1] == 'r' then Some((13 as char, 2))
    else if t[1] == 't' then Some((9 as char, 2))
    else if t[1] == 'f' then Some((12 as char, 2))
    else if t[1] == 'b' then Some((8 as char, 2))
    else None
  }

  /** The string up to its closing quote, and the text after it. */
  function ReadString(t: string): Option<(string, string)>
    decreases |t|
  {
    if t == [] then None
    else if t[0] == '"' then Some(([], t[1..]))
    else
      var first := ReadChar(t);
      if first.None? || first.value.1 == 0 || first.value.1 > |t| then None
      else
        var rest := ReadString(t[first.value.1..]);
        if rest.None? then None else Some(([first.value.0] + rest.value.0, rest.value.1))
  }

  predicate JsonSpace(c: char) { c as int == 9 || c as int == 10 || c as int == 13 || c as int == 32 }

  function SkipSpaces(t: string): string {
    if t != [] && JsonSpace(t[0]) then SkipSpaces(t[1..]) else t
  }

  /** The text after a given sign and the blanks before it. */
  function After(t: string, sign: char): Option<string> {
    var s := SkipSpaces(t);
    if s != [] && s[0] == sign then Some(s[1..]) else None
  }

  lemma AfterSign(sign: char, rest: string)
    requires !JsonSpace(sign)
    ensures After([sign] + rest, sign) == Some(rest)
  {
  }

  /** A given sign, then a string. */
  function ReadQuoted(t: string, sign: char): Option<(string, string)> {
    var opening := After(t, sign);
    var body := if opening.None? then None else After(opening.value, '"');
    if body.None? then None else ReadString(body.value)
  }

  // ---- Numbers, objects and arrays ----

  datatype Value = Text(text: string) | Number(number: int)

  datatype Member = Member(name: string, value: Value)

  predicate IsDigit(c: char) { '0' <= c <= '9' }

  /** How many digits the text starts with. */
  function Run(t: string): (n: nat)
    ensures n <= |t|
  {
    if t != [] && IsDigit(t[0]) then 1 + Run(t[1..]) else 0
  }

  function DecimalValue(t: string): nat
    requires forall i | 0 <= i < |t| :: IsDigit(t[i])
  {
    if t == [] then 0
    else
      assert IsDigit(t[|t| - 1]);
      DecimalValue(t[..|t| - 1]) * 10 + (t[|t| - 1] as int - '0' as int)
  }

  lemma {:induction false} RunIsDigits(t: string)
    ensures forall i | 0 <= i < Run(t) :: IsDigit(t[i])
  {
    if t != [] && IsDigit(t[0]) { RunIsDigits(t[1..]); }
  }

  function ReadNatural(t: string): Option<(int, string)> {
    RunIsDigits(t);
    if Run(t) == 0 then None else Some((DecimalValue(t[..Run(t)]), t[Run(t)..]))
  }

  /** An integer, with a sign or without. */
  function ReadNumber(t: string): Option<(int, string)> {
    if t != [] && t[0] == '-' then
      var n := ReadNatural(t[1..]);
      if n.None? then None else Some((-n.value.0, n.value.1))
    else
      var n := ReadNatural(t);
      if n.None? then None else Some((n.value.0, n.value.1))
  }

  function ReadValue(t: string): Option<(Value, string)> {
    var s := SkipSpaces(t);
    if s != [] && s[0] == '"' then
      var text := ReadString(s[1..]);
      if text.None? then None else Some((Text(text.value.0), text.value.1))
    else
      var n := ReadNumber(s);
      if n.None? then None else Some((Number(n.value.0), n.value.1))
  }

  /** A sign, a name, a colon and a value. */
  function ReadMember(t: string, sign: char): Option<(Member, string)> {
    var name := ReadQuoted(t, sign);
    var colon := if name.None? then None else After(name.value.1, ':');
    var value := if colon.None? then None else ReadValue(colon.value);
    if value.None? then None else Some((Member(name.value.0, value.value.0), value.value.1))
  }

  /** Members behind a sign, each next one behind a comma, up to the closing brace. */
  function ReadMembers(t: string, sign: char): Option<(seq<Member>, string)>
    decreases |t|
  {
    var first := ReadMember(t, sign);
    if first.None? || |first.value.1| >= |t| then None
    else if After(first.value.1, '}').Some? then Some(([first.value.0], After(first.value.1, '}').value))
    else
      var rest := ReadMembers(first.value.1, ',');
      if rest.None? then None else Some(([first.value.0] + rest.value.0, rest.value.1))
  }

  /** Objects behind a sign, each next one behind a comma, up to the closing bracket. */
  function ReadObjects(t: string, sign: char): Option<(seq<seq<Member>>, string)>
    decreases |t|
  {
    var opening := After(t, sign);
    var first := if opening.None? then None else ReadMembers(opening.value, '{');
    if first.None? || |first.value.1| >= |t| then None
    else if After(first.value.1, ']').Some? then Some(([first.value.0], After(first.value.1, ']').value))
    else
      var rest := ReadObjects(first.value.1, ',');
      if rest.None? then None else Some(([first.value.0] + rest.value.0, rest.value.1))
  }

  /** An array of objects. */
  function ReadArray(t: string): Option<(seq<seq<Member>>, string)> {
    var opening := After(t, '[');
    if opening.None? then None
    else if After(opening.value, ']').Some? then Some(([], After(opening.value, ']').value))
    else ReadObjects(t, '[')
  }
}
