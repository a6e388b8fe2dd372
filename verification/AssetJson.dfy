/**
 How the chaincode turns an asset into the text it stores, and that text back into an asset: the
 encoding of Go's encoding/json for this struct, within RFC 8259 (section 4 objects, section 6
 numbers, section 7 strings). A text is a sequence of Unicode scalar values.
 */
module AssetJson {
  import opened Wrappers
  import Decimal
  import KeyOrder
  import Words

  const MIN_INT64: int := -0x8000_0000_0000_0000
  const MAX_INT64: int := 0x7FFF_FFFF_FFFF_FFFF

  type Int64 = x: int | MIN_INT64 <= x <= MAX_INT64

  datatype Asset = Asset(appraisedValue: Int64, color: string, id: string, owner: string, size: Int64)

  // ---- Strings ----

  const BACKSPACE: char := '\U{8}'
  const FORM_FEED: char := '\U{C}'
  const REPLACEMENT: char := '\U{FFFD}'

  predicate IsControl(c: char) { c < ' ' }

  // Characters the encoder never leaves as they are, besides the quote and the backslash: the
  // controls, the three that matter inside HTML, and the two JavaScript line separators.
  predicate NeedsUnicodeEscape(c: char) {
    IsControl(c) || c in {'<', '>', '&', '\U{2028}', '\U{2029}'}
  }

  function HexDigit(d: nat): (c: char)
    requires d < 16
    ensures HexValue(c) == Some(d)
  {
    if d < 10 then ('0' as int + d) as char else ('a' as int + (d - 10)) as char
  }

  function HexValue(c: char): (d: Option<nat>)
    ensures d.Some? ==> d.value < 16
  {
    if '0' <= c <= '9' then Some(c as int - '0' as int)
    else if 'a' <= c <= 'f' then Some(c as int - 'a' as int + 10)
    else if 'A' <= c <= 'F' then Some(c as int - 'A' as int + 10)
    else None
  }

  function Hex4(n: nat): (s: string)
    requires n < 0x1_0000
    ensures |s| == 4
  {
    var upper3 := n / 0x10;
    var upper2 := upper3 / 0x10;
    [HexDigit(upper2 / 0x10), HexDigit(upper2 % 0x10), HexDigit(upper3 % 0x10), HexDigit(n % 0x10)]
  }

  // The code unit written as backslash, u and four hexadecimal digits at the front of s.
  function UnicodeEscape(s: string): (code: Option<nat>)
    ensures code.Some? ==> |s| >= 6 && code.value < 0x1_0000
  {
    if |s| < 6 || s[0] != '\\' || s[1] != 'u' then None
    else
      var a :- HexValue(s[2]);
      var b :- HexValue(s[3]);
      var c :- HexValue(s[4]);
      var d :- HexValue(s[5]);
      Some(0x1000 * a + 0x100 * b + 0x10 * c + d)
  }

  function EscapeChar(c: char): (s: string)
    ensures s != []
  {
    if c == '"' then ['\\', '"']
    else if c == '\\' then ['\\', '\\']
    else if c == '\n' then ['\\', 'n']
    else if c == '\r' then ['\\', 'r']
    else if c == '\t' then ['\\', 't']
    else if c == BACKSPACE then ['\\', 'b']
    else if c == FORM_FEED then ['\\', 'f']
    else if NeedsUnicodeEscape(c) then ['\\', 'u'] + Hex4(c as int)
    else [c]
  }

  function EscapeText(s: string): string {
    if s == [] then [] else EscapeChar(s[0]) + EscapeText(s[1..])
  }

  function Quote(s: string): string { ['"'] + EscapeText(s) + ['"'] }

  // What a letter stands for after a backslash, other than u.
  function ShortEscape(c: char): Option<char> {
    if c in {'"', '\\', '/'} then Some(c)
    else if c == 'b' then Some(BACKSPACE)
    else if c == 'f' then Some(FORM_FEED)
    else if c == 'n' then Some('\n')
    else if c == 'r' then Some('\r')
    else if c == 't' then Some('\t')
    else None
  }

  predicate IsSurrogate(code: nat) { 0xD800 <= code < 0xE000 }

  // The scalar of a surrogate pair, when the two code units form one.
  function SurrogatePair(high: nat, low: Option<nat>): Option<char> {
    if 0xD800 <= high < 0xDC00 && low.Some? && 0xDC00 <= low.value < 0xE000
    then Some((0x1_0000 + 0x400 * (high - 0xD800) + (low.value - 0xDC00)) as char)
    else None
  }

  datatype Read<+T> = Read(item: T, rest: string)

  // One character of a string body. A lone surrogate reads as the replacement character.
  function ReadChar(s: string): (r: Option<Read<char>>)
    requires s != []
    ensures r.Some? ==> |r.value.rest| < |s|
  {
    if IsControl(s[0]) || s[0] == '"' then None
    else if s[0] != '\\' then Some(Read(s[0], s[1..]))
    else if |s| < 2 then None
    else if s[1] != 'u' then
      var c :- ShortEscape(s[1]);
      Some(Read(c, s[2..]))
    else
      var code :- UnicodeEscape(s);
      if !IsSurrogate(code) then Some(Read(code as char, s[6..]))
      else
        var pair := SurrogatePair(code, UnicodeEscape(s[6..]));
        if pair.Some? then Some(Read(pair.value, s[12..])) else Some(Read(REPLACEMENT, s[6..]))
  }

  // A string body up to and including its closing quote.
  function ReadBody(s: string): (r: Option<Read<string>>)
    ensures r.Some? ==> |r.value.rest| < |s|
    decreases |s|
  {
    if s == [] then None
    else if s[0] == '"' then Some(Read([], s[1..]))
    else
      var c :- ReadChar(s);
      var tail :- ReadBody(c.rest);
      Some(Read([c.item] + tail.item, tail.rest))
  }

  function Expect(literal: string, s: string): Option<string> {
    if literal <= s then Some(s[|literal|..]) else None
  }

  function ReadString(s: string): Option<Read<string>> {
    var body :- Expect(['"'], s);
    ReadBody(body)
  }

  // ---- Numbers ----

  // A numeral with a superfluous leading zero is not JSON.
  function ReadNat(s: string): Option<Read<nat>> {
    var n := Decimal.DigitsAhead(s);
    if n == 0 || (n > 1 && s[0] == '0') then None else Some(Read(Decimal.ToNat(s[..n]), s[n..]))
  }

  // An integer that fits 64 bits; one that does not fit is an error.
  function ReadInt(s: string): Option<Read<Int64>> {
    var negative := s != [] && s[0] == '-';
    var magnitude :- ReadNat(if negative then s[1..] else s);
    var value := if negative then 0 - magnitude.item else magnitude.item;
    if MIN_INT64 <= value <= MAX_INT64 then Some(Read(value, magnitude.rest)) else None
  }

  // ---- Assets ----

  // The members in the order of the struct's fields, which is alphabetic.
  const APPRAISED_VALUE: string := "{\"AppraisedValue\":"
  const COLOR: string := ",\"Color\":"
  const ID: string := ",\"ID\":"
  const OWNER: string := ",\"Owner\":"
  const SIZE: string := ",\"Size\":"

  function Print(a: Asset): string {
    APPRAISED_VALUE + (Decimal.OfInt(a.appraisedValue) +
    (COLOR + (Quote(a.color) +
    (ID + (Quote(a.id) +
    (OWNER + (Quote(a.owner) +
    (SIZE + (Decimal.OfInt(a.size) + "}")))))))))
  }

  function Parse(s: string): Option<Asset> {
    var s0 :- Expect(APPRAISED_VALUE, s);
    var appraisedValue :- ReadInt(s0);
    var s1 :- Expect(COLOR, appraisedValue.rest);
    var color :- ReadString(s1);
    var s2 :- Expect(ID, color.rest);
    var id :- ReadString(s2);
    var s3 :- Expect(OWNER, id.rest);
    var owner :- ReadString(s3);
    var s4 :- Expect(SIZE, owner.rest);
    var size :- ReadInt(s4);
    if size.rest == "}"
    then Some(Asset(appraisedValue.item, color.item, id.item, owner.item, size.item))
    else None
  }

  // ---- The round trip ----

  lemma {:induction false} Hex4Read(n: nat, rest: string)
    requires n < 0x1_0000
    ensures UnicodeEscape(['\\', 'u'] + Hex4(n) + rest) == Some(n)
  {
    var s := ['\\', 'u'] + Hex4(n) + rest;
    assert s[2] == Hex4(n)[0] && s[3] == Hex4(n)[1] && s[4] == Hex4(n)[2] && s[5] == Hex4(n)[3];
  }

  lemma {:induction false} ReadCharEscapeChar(c: char, rest: string)
    ensures EscapeChar(c)[0] != '"'
    ensures ReadChar(EscapeChar(c) + rest) == Some(Read(c, rest))
  {
    var escaped := EscapeChar(c);
    var s := escaped + rest;
    assert s[|escaped|..] == rest;
    assert s[0] == escaped[0];
    if escaped != [c] {
      assert s[1] == escaped[1];
      if s[1] == 'u' {
        Hex4Read(c as int, rest);
      }
    }
  }

  lemma {:induction false} ReadBodyTakesChar(piece: string, c: char, tail: string)
    requires piece != [] && piece[0] != '"'
    requires ReadChar(piece + tail) == Some(Read(c, tail))
    ensures ReadBody(piece + tail) ==
            match ReadBody(tail)
            case None => None
            case Some(t) => Some(Read([c] + t.item, t.rest))
  {
    assert (piece + tail)[0] == piece[0];
  }

  lemma {:induction false} ReadBodyEscapeText(text: string, rest: string)
    ensures ReadBody(EscapeText(text) + (['"'] + rest)) == Some(Read(text, rest))
  {
    var quoted := ['"'] + rest;
    if text == [] {
      assert EscapeText(text) + quoted == quoted;
      assert quoted[1..] == rest;
    } else {
      var piece := EscapeChar(text[0]);
      var tail := EscapeText(text[1..]) + quoted;
      assert EscapeText(text) + quoted == piece + tail;
      ReadCharEscapeChar(text[0], tail);
      ReadBodyTakesChar(piece, text[0], tail);
      ReadBodyEscapeText(text[1..], rest);
      assert [text[0]] + text[1..] == text;
    }
  }

  lemma {:induction false} Reassociate(a: string, b: string, c: string, d: string)
    ensures a + b + c + d == a + (b + (c + d))
  {
  }

  lemma {:induction false} ReadStringQuote(text: string, rest: string)
    ensures ReadString(Quote(text) + rest) == Some(Read(text, rest))
  {
    ReadBodyEscapeText(text, rest);
    Reassociate(['"'], EscapeText(text), ['"'], rest);
    ExpectLiteral(['"'], EscapeText(text) + (['"'] + rest));
  }

  lemma {:induction false} ReadNatOfNat(n: nat, rest: string)
    requires rest == [] || !Decimal.IsDigit(rest[0])
    ensures ReadNat(Decimal.OfNat(n) + rest) == Some(Read(n, rest))
  {
    var digits := Decimal.OfNat(n);
    var s := digits + rest;
    Decimal.DigitsAheadStopsAfter(digits, rest);
    Decimal.ToNatOfNat(n);
    assert s[..|digits|] == digits && s[|digits|..] == rest && s[0] == digits[0];
  }

  // The sign is read separately from the magnitude.
  lemma {:induction false} ReadIntSigns(t: string, magnitude: nat, rest: string)
    requires t != [] && t[0] != '-'
    requires ReadNat(t) == Some(Read(magnitude, rest))
    ensures magnitude <= MAX_INT64 ==> ReadInt(t) == Some(Read(magnitude, rest))
    ensures magnitude <= -MIN_INT64 ==> ReadInt(['-'] + t) == Some(Read(0 - magnitude, rest))
  {
    assert (['-'] + t)[1..] == t;
  }

  lemma {:induction false} ReadIntOfInt(n: int, rest: string)
    requires MIN_INT64 <= n <= MAX_INT64
    requires rest == [] || !Decimal.IsDigit(rest[0])
    ensures ReadInt(Decimal.OfInt(n) + rest) == Some(Read(n, rest))
  {
    var magnitude := if n < 0 then -n else n;
    var t := Decimal.OfNat(magnitude) + rest;
    OfIntThen(n, rest);
    ReadNatOfNat(magnitude, rest);
    ReadIntSigns(t, magnitude, rest);
  }

  lemma {:induction false} OfIntThen(n: int, rest: string)
    ensures var t := Decimal.OfNat(if n < 0 then -n else n) + rest;
            t[0] != '-' && Decimal.OfInt(n) + rest == if n < 0 then ['-'] + t else t
  {
    var digits := Decimal.OfNat(if n < 0 then -n else n);
    assert (digits + rest)[0] == digits[0];
    Regroup(['-'], digits, rest);
  }

  lemma {:induction false} ExpectLiteral(literal: string, rest: string)
    ensures Expect(literal, literal + rest) == Some(rest)
  {
  }

  // Parsing what was printed gives back the asset, for every asset.
  lemma {:induction false} RoundTrip(a: Asset)
    ensures Parse(Print(a)) == Some(a)
  {
    var t9 := Decimal.OfInt(a.size) + "}";
    var t8 := SIZE + t9;
    var t7 := Quote(a.owner) + t8;
    var t6 := OWNER + t7;
    var t5 := Quote(a.id) + t6;
    var t4 := ID + t5;
    var t3 := Quote(a.color) + t4;
    var t2 := COLOR + t3;
    var t1 := Decimal.OfInt(a.appraisedValue) + t2;
    ExpectLiteral(APPRAISED_VALUE, t1);
    ReadIntOfInt(a.appraisedValue, t2);
    ExpectLiteral(COLOR, t3);
    ReadStringQuote(a.color, t4);
    ExpectLiteral(ID, t5);
    ReadStringQuote(a.id, t6);
    ExpectLiteral(OWNER, t7);
    ReadStringQuote(a.owner, t8);
    ExpectLiteral(SIZE, t9);
    ReadIntOfInt(a.size, "}");
  }

  lemma {:induction false} Regroup(a: string, b: string, t: string)
    ensures (a + b) + t == a + (b + t)
  {
  }

  // Anything after the closing brace is refused.
  lemma {:induction false} TrailingTextRefused(a: Asset, t: string)
    ensures Parse(Print(a) + t) == if t == "" then Some(a) else None
  {
    if t == "" {
      assert Print(a) + t == Print(a);
      RoundTrip(a);
    } else {
      var t9 := Decimal.OfInt(a.size) + "}";
      var t8 := SIZE + t9;
      var t7 := Quote(a.owner) + t8;
      var t6 := OWNER + t7;
      var t5 := Quote(a.id) + t6;
      var t4 := ID + t5;
      var t3 := Quote(a.color) + t4;
      var t2 := COLOR + t3;
      var t1 := Decimal.OfInt(a.appraisedValue) + t2;
      IntThen(APPRAISED_VALUE, a.appraisedValue, t2, t);
      TextThen(COLOR, a.color, t4, t);
      TextThen(ID, a.id, t6, t);
      TextThen(OWNER, a.owner, t8, t);
      IntThen(SIZE, a.size, "}", t);
    }
  }

  // A number, or a string, behind its name and before whatever follows.
  lemma {:induction false} IntThen(name: string, n: Int64, rest: string, t: string)
    requires rest != [] && !Decimal.IsDigit(rest[0])
    ensures Expect(name, (name + (Decimal.OfInt(n) + rest)) + t) == Some((Decimal.OfInt(n) + rest) + t)
    ensures ReadInt((Decimal.OfInt(n) + rest) + t) == Some(Read(n, rest + t))
  {
    Regroup(name, Decimal.OfInt(n) + rest, t);
    ExpectLiteral(name, (Decimal.OfInt(n) + rest) + t);
    Regroup(Decimal.OfInt(n), rest, t);
    ReadIntOfInt(n, rest + t);
  }

  lemma {:induction false} TextThen(name: string, text: string, rest: string, t: string)
    ensures Expect(name, (name + (Quote(text) + rest)) + t) == Some((Quote(text) + rest) + t)
    ensures ReadString((Quote(text) + rest) + t) == Some(Read(text, rest + t))
  {
    Regroup(name, Quote(text) + rest, t);
    ExpectLiteral(name, (Quote(text) + rest) + t);
    Regroup(Quote(text), rest, t);
    ReadStringQuote(text, rest + t);
  }

  // Two assets are stored as the same text exactly when they are the same asset.
  lemma {:induction false} PrintInjective(a: Asset, b: Asset)
    ensures Print(a) == Print(b) <==> a == b
  {
    RoundTrip(a);
    RoundTrip(b);
  }

  // ---- The text itself ----

  predicate IsSafe(c: char) { c >= ' ' && c !in {'<', '>', '&', '\U{2028}', '\U{2029}'} }

  ghost predicate Safe(s: string) { forall i :: 0 <= i < |s| ==> IsSafe(s[i]) }

  lemma {:induction false} EscapeTextSafe(s: string)
    ensures Safe(EscapeText(s))
  {
    if s != [] {
      assert Safe(EscapeChar(s[0])) by {
        if |EscapeChar(s[0])| == 6 {
          Hex4Safe(s[0] as int);
        }
      }
      EscapeTextSafe(s[1..]);
    }
  }

  lemma {:induction false} Hex4Safe(n: nat)
    requires n < 0x1_0000
    ensures Safe(Hex4(n))
  {
    forall i | 0 <= i < 4 ensures IsSafe(Hex4(n)[i]) { assert HexValue(Hex4(n)[i]).Some?; }
  }

  lemma {:induction false} OfIntSafe(n: int)
    ensures Safe(Decimal.OfInt(n))
  {
    assert Safe(Decimal.OfNat(if n < 0 then -n else n)) by {
      assert Decimal.AllDigits(Decimal.OfNat(if n < 0 then -n else n));
    }
  }

  lemma {:induction false} SafeConcat(a: string, b: string)
    requires Safe(a) && Safe(b)
    ensures Safe(a + b)
  {
  }

  lemma {:induction false} QuoteSafe(text: string, rest: string)
    requires Safe(rest)
    ensures Safe(Quote(text) + rest)
  {
    EscapeTextSafe(text);
  }

  lemma {:induction false} LabelsSafe()
    ensures Safe(APPRAISED_VALUE) && Safe(COLOR) && Safe(ID) && Safe(OWNER) && Safe(SIZE)
  {
  }

  // Whatever the strings of an asset contain, the text holds no control character, no line separator
  // and none of the characters that mean something inside HTML.
  lemma {:induction false} PrintSafe(a: Asset)
    ensures forall i :: 0 <= i < |Print(a)| ==>
              Print(a)[i] >= ' ' && Print(a)[i] !in {'<', '>', '&', '\U{2028}', '\U{2029}'}
  {
    PrintIsSafe(a);
  }

  lemma {:induction false} PrintIsSafe(a: Asset)
    ensures Safe(Print(a))
  {
    LabelsSafe();
    var t9 := Decimal.OfInt(a.size) + "}";
    OfIntSafe(a.size);
    SafeConcat(Decimal.OfInt(a.size), "}");
    SafeConcat(SIZE, t9);
    QuoteSafe(a.owner, SIZE + t9);
    var t6 := OWNER + (Quote(a.owner) + (SIZE + t9));
    SafeConcat(OWNER, Quote(a.owner) + (SIZE + t9));
    QuoteSafe(a.id, t6);
    var t4 := ID + (Quote(a.id) + t6);
    SafeConcat(ID, Quote(a.id) + t6);
    QuoteSafe(a.color, t4);
    var t2 := COLOR + (Quote(a.color) + t4);
    SafeConcat(COLOR, Quote(a.color) + t4);
    OfIntSafe(a.appraisedValue);
    SafeConcat(Decimal.OfInt(a.appraisedValue), t2);
    SafeConcat(APPRAISED_VALUE, Decimal.OfInt(a.appraisedValue) + t2);
  }

  // ---- The object ----

  // A member of a JSON object: its name as a string, a colon, its value.
  function Member(name: string, value: string): string { Quote(name) + ":" + value }

  const NAMES: seq<string> := ["AppraisedValue", "Color", "ID", "Owner", "Size"]

  // The members, one under each name.
  function Members(a: Asset): seq<string> {
    [Member(NAMES[0], Decimal.OfInt(a.appraisedValue)), Member(NAMES[1], Quote(a.color)), Member(NAMES[2], Quote(a.id)),
     Member(NAMES[3], Quote(a.owner)), Member(NAMES[4], Decimal.OfInt(a.size))]
  }

  lemma {:induction false} FirstDecides(a: string, b: string)
    requires a != "" && b != "" && a[0] < b[0]
    ensures KeyOrder.Less(a, b)
  {
  }

  lemma {:induction false} NamesAscend()
    ensures KeyOrder.Ascending(NAMES)
  {
    assert NAMES[0][0] == 'A' && NAMES[1][0] == 'C' && NAMES[2][0] == 'I' && NAMES[3][0] == 'O' && NAMES[4][0] == 'S';
    forall i, j | 0 <= i < j < |NAMES| ensures KeyOrder.Less(NAMES[i], NAMES[j]) { FirstDecides(NAMES[i], NAMES[j]); }
  }

  predicate Plain(s: string) {
    forall i :: 0 <= i < |s| ==> IsSafe(s[i]) && s[i] !in {'"', '\\'}
  }

  lemma {:induction false} EscapePlain(s: string)
    requires Plain(s)
    ensures EscapeText(s) == s
  {
    if s != [] {
      EscapePlain(s[1..]);
    }
  }

  // Nothing else is escaped: a string of other characters stands in the text as it is.
  lemma {:induction false} OthersNotEscaped(s: string)
    requires forall i :: 0 <= i < |s| ==>
               s[i] >= ' ' && s[i] !in {'"', '\\', '<', '>', '&', '\U{2028}', '\U{2029}'}
    ensures EscapeText(s) == s
  {
    assert Plain(s);
    EscapePlain(s);
  }

  const HEX: string := "0123456789abcdef"

  // The characters with a spelling of their own.
  lemma {:induction false} EscapeSpellings()
    ensures EscapeChar('"') == "\\\"" && EscapeChar('\\') == "\\\\"
    ensures EscapeChar('\n') == "\\n" && EscapeChar('\r') == "\\r" && EscapeChar('\t') == "\\t"
    ensures EscapeChar('\U{8}') == "\\b" && EscapeChar('\U{C}') == "\\f"
  {
  }

  lemma {:induction false} HexDigitIs(d: nat)
    requires d < 16
    ensures HexDigit(d) == HEX[d]
  {
  }

  lemma {:induction false} Hex4Digits(n: nat)
    requires n < 0x1_0000
    ensures Hex4(n) == [HEX[n / 0x10 / 0x10 / 0x10], HEX[n / 0x10 / 0x10 % 0x10], HEX[n / 0x10 % 0x10], HEX[n % 0x10]]
  {
    HexDigitIs(n / 0x10 / 0x10 / 0x10);
    HexDigitIs(n / 0x10 / 0x10 % 0x10);
    HexDigitIs(n / 0x10 % 0x10);
    HexDigitIs(n % 0x10);
  }

  // The controls without a letter of their own, and the five: their code in four hexadecimal digits.
  lemma {:induction false} CodeSpellings(c: char)
    requires (c < ' ' && c !in {'\n', '\r', '\t', '\U{8}', '\U{C}'}) || c in {'<', '>', '&', '\U{2028}', '\U{2029}'}
    ensures EscapeChar(c) == ['\\', 'u', HEX[c as int / 0x10 / 0x10 / 0x10], HEX[c as int / 0x10 / 0x10 % 0x10],
                              HEX[c as int / 0x10 % 0x10], HEX[c as int % 0x10]]
  {
    EscapedByCode(c);
    Hex4Digits(c as int);
  }

  lemma {:induction false} EscapedByCode(c: char)
    requires (c < ' ' && c !in {'\n', '\r', '\t', '\U{8}', '\U{C}'}) || c in {'<', '>', '&', '\U{2028}', '\U{2029}'}
    ensures (c as int) < 0x1_0000 && EscapeChar(c) == ['\\', 'u'] + Hex4(c as int)
  {
  }

  // What the decoder accepts beyond that: the other spellings of RFC 8259, surrogate pairs, and lone
  // surrogates as the replacement character. A raw control character is refused.
  lemma {:induction false} OtherSpellingsRead(rest: string)
    ensures ReadChar("\\/" + rest) == Some(Read('/', rest))
    ensures ReadChar("\\u000A" + rest) == Some(Read('\n', rest))
    ensures ReadChar("\\ud83d\\ude00" + rest) == Some(Read('\U{1F600}', rest))
    ensures ReadChar("\\ude00" + rest) == Some(Read('\U{FFFD}', rest))
    ensures ReadBody("\n" + rest) == None
  {
    ShortRead("\\/", rest);
    SixRead('0', '0', '0', 'A', rest);
    assert "\\u000A" == ['\\', 'u', '0', '0', '0', 'A'];
    SixRead('d', 'e', '0', '0', rest);
    assert "\\ude00" == ['\\', 'u', 'd', 'e', '0', '0'];
    SixRead('d', '8', '3', 'd', "\\ude00" + rest);
    assert "\\ud83d\\ude00" + rest == ['\\', 'u', 'd', '8', '3', 'd'] + ("\\ude00" + rest);
    var pair := "\\ud83d\\ude00" + rest;
    assert pair[12..] == rest;
  }

  lemma {:induction false} ShortRead(escape: string, rest: string)
    requires |escape| == 2
    ensures (escape + rest)[0] == escape[0] && (escape + rest)[1] == escape[1] && (escape + rest)[2..] == rest
  {
  }

  lemma {:induction false} SixRead(a: char, b: char, c: char, d: char, rest: string)
    requires HexValue(a).Some? && HexValue(b).Some? && HexValue(c).Some? && HexValue(d).Some?
    ensures var s := ['\\', 'u', a, b, c, d] + rest;
            && s[0] == '\\' && s[1] == 'u' && s[6..] == rest
            && UnicodeEscape(s) == Some(0x1000 * HexValue(a).value + 0x100 * HexValue(b).value + 0x10 * HexValue(c).value + HexValue(d).value)
  {
    var s := ['\\', 'u', a, b, c, d] + rest;
    assert s[2] == a && s[3] == b && s[4] == c && s[5] == d;
  }

  // A numeral is read exactly if it fits a signed 64-bit integer.
  lemma {:induction false} ReadIntRange(n: int, rest: string)
    requires rest == [] || !Decimal.IsDigit(rest[0])
    ensures ReadInt(Decimal.OfInt(n) + rest).Some? <==> -9223372036854775808 <= n <= 9223372036854775807
  {
    var magnitude := if n < 0 then -n else n;
    var t := Decimal.OfNat(magnitude) + rest;
    OfIntThen(n, rest);
    ReadNatOfNat(magnitude, rest);
    ReadIntOfMagnitude(t, magnitude, rest);
  }

  lemma {:induction false} ReadIntOfMagnitude(t: string, magnitude: nat, rest: string)
    requires t != [] && t[0] != '-'
    requires ReadNat(t) == Some(Read(magnitude, rest))
    ensures ReadInt(t).Some? <==> magnitude <= MAX_INT64
    ensures ReadInt(['-'] + t).Some? <==> magnitude <= -MIN_INT64
  {
    assert (['-'] + t)[1..] == t;
  }

  // A superfluous leading zero is refused.
  lemma {:induction false} LeadingZeroRefused(digits: string, rest: string)
    requires digits != [] && Decimal.AllDigits(digits)
    ensures ReadInt(['0'] + digits + rest) == None
  {
    var s := ['0'] + digits + rest;
    assert s[0] == '0' && s[1] == digits[0];
    assert Decimal.DigitsAhead(s[1..]) > 0 by { assert s[1..][0] == digits[0]; }
  }

  function Tag(name: string): string { ['"'] + name + ['"', ':'] }

  lemma {:induction false} MemberOfPlain(name: string, value: string)
    requires Plain(name)
    ensures Member(name, value) == Tag(name) + value
  {
    EscapePlain(name);
    assert Quote(name) + ":" == Tag(name);
  }

  lemma {:induction false} Tags()
    ensures APPRAISED_VALUE == ['{'] + Tag("AppraisedValue") && COLOR == [','] + Tag("Color")
    ensures ID == [','] + Tag("ID") && OWNER == [','] + Tag("Owner") && SIZE == [','] + Tag("Size")
  {
  }

  lemma {:induction false} NamesPlain()
    ensures Plain("AppraisedValue") && Plain("Color") && Plain("ID") && Plain("Owner") && Plain("Size")
  {
  }

  // A member before the rest of the object, once with its comma and once without.
  lemma {:induction false} Prefixed(c: char, tag: string, value: string, rest: string)
    ensures ([c] + tag) + (value + (rest + "}")) == [c] + ((tag + value) + rest) + "}"
  {
  }

  lemma {:induction false} JoinFive(a: string, b: string, c: string, d: string, e: string)
    ensures Words.Join([a, b, c, d, e], ',') == a + ([','] + (b + ([','] + (c + ([','] + (d + ([','] + (e + []))))))))
  {
    assert [a, b, c, d, e][1..] == [b, c, d, e] && [b, c, d, e][1..] == [c, d, e];
    assert [c, d, e][1..] == [d, e] && [d, e][1..] == [e];
    var de := d + ([','] + (e + []));
    assert Words.Join([d, e], ',') == de;
    var cde := c + ([','] + de);
    assert Words.Join([c, d, e], ',') == cde;
    var bcde := b + ([','] + cde);
    assert Words.Join([b, c, d, e], ',') == bcde;
    assert Words.Join([a, b, c, d, e], ',') == a + ([','] + bcde);
  }

  // The text is a JSON object: each field's value under the name of its tag, joined by commas, in the
  // alphabetic order of the names.
  lemma {:induction false} PrintIsObject(a: Asset)
    ensures Print(a) == ['{'] + Words.Join(Members(a), ',') + "}"
    ensures NAMES == ["AppraisedValue", "Color", "ID", "Owner", "Size"] && KeyOrder.Ascending(NAMES)
  {
    NamesAscend();
    Tags();
    NamesPlain();
    var v0, v1, v2, v3, v4 :=
      Decimal.OfInt(a.appraisedValue), Quote(a.color), Quote(a.id), Quote(a.owner), Decimal.OfInt(a.size);
    MemberOfPlain("AppraisedValue", v0);
    MemberOfPlain("Color", v1);
    MemberOfPlain("ID", v2);
    MemberOfPlain("Owner", v3);
    MemberOfPlain("Size", v4);
    var r4 := (Tag("Size") + v4) + [];
    Prefixed(',', Tag("Size"), v4, []);
    assert [] + "}" == "}";
    var r3 := (Tag("Owner") + v3) + ([','] + r4);
    Prefixed(',', Tag("Owner"), v3, [','] + r4);
    var r2 := (Tag("ID") + v2) + ([','] + r3);
    Prefixed(',', Tag("ID"), v2, [','] + r3);
    var r1 := (Tag("Color") + v1) + ([','] + r2);
    Prefixed(',', Tag("Color"), v1, [','] + r2);
    Prefixed('{', Tag("AppraisedValue"), v0, [','] + r1);
    JoinFive(Member("AppraisedValue", v0), Member("Color", v1), Member("ID", v2), Member("Owner", v3), Member("Size", v4));
  }
}
