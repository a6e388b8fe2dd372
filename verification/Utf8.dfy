/**
 Texts as bytes: UTF-8, as Go strings and the world state hold them. Reading undoes encoding, bytes that
 are no UTF-8 are replaced, and comparing the bytes is comparing the characters.
 */
module Utf8 {
  import opened Wrappers
  import opened KeyOrder

  type Byte = x: int | 0 <= x < 0x100

  type Bytes = seq<Byte>

  function EncodeChar(c: char): (b: Bytes)
    ensures 1 <= |b| <= 4
  {
    var n := c as int;
    if n < 0x80 then [n]
    else if n < 0x800 then [0xC0 + n / 0x40, 0x80 + n % 0x40]
    else
      var upper := n / 0x40;
      if n < 0x1_0000 then [0xE0 + upper / 0x40, 0x80 + upper % 0x40, 0x80 + n % 0x40]
      else
        var top := upper / 0x40;
        [0xF0 + top / 0x40, 0x80 + top % 0x40, 0x80 + upper % 0x40, 0x80 + n % 0x40]
  }

  function Encode(s: string): Bytes {
    if s == [] then [] else EncodeChar(s[0]) + Encode(s[1..])
  }

  predicate IsContinuation(b: Byte) { 0x80 <= b < 0xC0 }

  datatype Decoded = Decoded(c: char, length: nat)

  predicate IsScalar(n: int) { 0 <= n < 0xD800 || 0xE000 <= n < 0x11_0000 }

  // Six more bits.
  function Append(n: int, b: Byte): int { 0x40 * n + (b as int - 0x80) }

  function Accept(n: int, least: int, length: nat): (d: Option<Decoded>)
    ensures d.Some? ==> d.value.length == length && d.value.c as int == n >= least
  {
    if n >= least && IsScalar(n) then Some(Decoded(n as char, length)) else None
  }

  // The character at the front of b: not one written with more bytes than it needs, nor a surrogate.
  function DecodeChar(b: Bytes): (d: Option<Decoded>)
    ensures d.Some? ==> 1 <= d.value.length <= |b|
  {
    if b == [] then None
    else if b[0] < 0x80 then Some(Decoded(b[0] as char, 1))
    else if |b| < 2 || b[0] < 0xC0 || !IsContinuation(b[1]) then None
    else if b[0] < 0xE0 then Accept(Append(b[0] as int - 0xC0, b[1]), 0x80, 2)
    else if |b| < 3 || !IsContinuation(b[2]) then None
    else if b[0] < 0xF0 then Accept(Append(Append(b[0] as int - 0xE0, b[1]), b[2]), 0x800, 3)
    else if |b| < 4 || b[0] >= 0xF8 || !IsContinuation(b[3]) then None
    else Accept(Append(Append(Append(b[0] as int - 0xF0, b[1]), b[2]), b[3]), 0x1_0000, 4)
  }

  function Decode(b: Bytes): Option<string>
    decreases |b|
  {
    if b == [] then Some([])
    else
      var d :- DecodeChar(b);
      var rest :- Decode(b[d.length..]);
      Some([d.c] + rest)
  }

  // One character of each length, as the standard has them.
  lemma {:induction false} EncodingExamples()
    ensures EncodeChar('A') == [0x41] && EncodeChar('\U{E9}') == [0xC3, 0xA9]
    ensures EncodeChar('\U{20AC}') == [0xE2, 0x82, 0xAC] && EncodeChar('\U{1F600}') == [0xF0, 0x9F, 0x98, 0x80]
  {
  }

  // ---- Decoding undoes encoding, and the other way round ----

  lemma {:induction false} DecodeCharEncodeChar(c: char, rest: Bytes)
    ensures DecodeChar(EncodeChar(c) + rest) == Some(Decoded(c, |EncodeChar(c)|))
  {
    var e := EncodeChar(c);
    var b := e + rest;
    assert forall i :: 0 <= i < |e| ==> b[i] == e[i];
  }

  lemma {:induction false} SplitLast(n: int, b: Byte)
    requires n >= 0 && IsContinuation(b)
    ensures Append(n, b) / 0x40 == n && 0x80 + Append(n, b) % 0x40 == b
  {
  }

  lemma {:induction false} EncodeCharDecodeChar(b: Bytes)
    requires DecodeChar(b).Some?
    ensures var d := DecodeChar(b).value; EncodeChar(d.c) == b[..d.length]
  {
    if b[0] >= 0xF0 {
      var n1 := Append(b[0] as int - 0xF0, b[1]);
      var n2 := Append(n1, b[2]);
      SplitLast(b[0] as int - 0xF0, b[1]);
      SplitLast(n1, b[2]);
      SplitLast(n2, b[3]);
      assert b[..4] == [b[0], b[1], b[2], b[3]];
    } else if b[0] >= 0xE0 {
      var n1 := Append(b[0] as int - 0xE0, b[1]);
      SplitLast(b[0] as int - 0xE0, b[1]);
      SplitLast(n1, b[2]);
      assert b[..3] == [b[0], b[1], b[2]];
    } else if b[0] >= 0xC0 {
      SplitLast(b[0] as int - 0xC0, b[1]);
      assert b[..2] == [b[0], b[1]];
    } else {
      assert b[..1] == [b[0]];
    }
  }

  lemma {:induction false} DecodeEncode(s: string)
    ensures Decode(Encode(s)) == Some(s)
  {
    if s != [] {
      DecodeCharEncodeChar(s[0], Encode(s[1..]));
      assert Encode(s)[|EncodeChar(s[0])|..] == Encode(s[1..]);
      DecodeEncode(s[1..]);
      assert [s[0]] + s[1..] == s;
    }
  }

  lemma {:induction false} EncodeFirst(b: Bytes, n: nat, c: char, rest: string)
    requires n <= |b| && EncodeChar(c) == b[..n] && Encode(rest) == b[n..]
    ensures Encode([c] + rest) == b
  {
    assert ([c] + rest)[1..] == rest;
    assert b[..n] + b[n..] == b;
  }

  lemma {:induction false} EncodeDecode(b: Bytes)
    requires Decode(b).Some?
    ensures Encode(Decode(b).value) == b
    decreases |b|
  {
    if b != [] {
      var d := DecodeChar(b).value;
      var rest := Decode(b[d.length..]).value;
      assert Decode(b) == Some([d.c] + rest);
      EncodeCharDecodeChar(b);
      EncodeDecode(b[d.length..]);
      EncodeFirst(b, d.length, d.c, rest);
    }
  }

  // ---- Reading any bytes ----

  const REPLACEMENT: char := '\U{FFFD}'

  // As Go reads: a byte at which no character decodes counts as one replacement character.
  function ReadText(b: Bytes): string
    decreases |b|
  {
    if b == [] then []
    else
      match DecodeChar(b)
      case Some(d) => [d.c] + ReadText(b[d.length..])
      case None => [REPLACEMENT] + ReadText(b[1..])
  }

  lemma {:induction false} ReadTextOfValid(b: Bytes)
    requires Decode(b).Some?
    ensures ReadText(b) == Decode(b).value
    decreases |b|
  {
    if b != [] {
      ReadTextOfValid(b[DecodeChar(b).value.length..]);
    }
  }

  // Every text survives being stored as bytes and read back.
  lemma {:induction false} ReadTextEncode(s: string)
    ensures ReadText(Encode(s)) == s
  {
    DecodeEncode(s);
    ReadTextOfValid(Encode(s));
  }

  // Reading loses nothing exactly on valid UTF-8.
  lemma {:induction false} ReadTextExact(b: Bytes)
    ensures Encode(ReadText(b)) == b <==> Decode(b).Some?
  {
    if Decode(b).Some? {
      ReadTextOfValid(b);
      EncodeDecode(b);
    }
    DecodeEncode(ReadText(b));
  }

  // A stray byte reads like the replacement character itself.
  lemma {:induction false} StrayByteReadsAlike()
    ensures ReadText([0xFF]) == ReadText([0xEF, 0xBF, 0xBD]) == [REPLACEMENT]
  {
    var b: Bytes := [0xEF, 0xBF, 0xBD];
    assert DecodeChar(b) == Some(Decoded(REPLACEMENT, 3));
    assert b[3..] == [];
    var stray: Bytes := [0xFF];
    assert stray[1..] == [];
  }

  lemma {:induction false} ReadTextAfter(s: string, rest: Bytes)
    ensures ReadText(Encode(s) + rest) == s + ReadText(rest)
  {
    if s == [] {
      assert Encode(s) + rest == rest;
    } else {
      ReadTextAfter(s[1..], rest);
      ReadTextChar(s[0], Encode(s[1..]) + rest);
      Regroup(EncodeChar(s[0]), Encode(s[1..]), rest);
      Regroup([s[0]], s[1..], ReadText(rest));
      assert [s[0]] + s[1..] == s;
    }
  }

  lemma {:induction false} Regroup<T>(a: seq<T>, b: seq<T>, c: seq<T>)
    ensures a + b + c == a + (b + c)
  {
  }

  lemma {:induction false} ReadTextChar(c: char, rest: Bytes)
    ensures ReadText(EncodeChar(c) + rest) == [c] + ReadText(rest)
  {
    DecodeCharEncodeChar(c, rest);
    assert (EncodeChar(c) + rest)[|EncodeChar(c)|..] == rest;
  }

  lemma {:induction false} ReadTextStray(stray: Byte, rest: Bytes)
    requires 0x80 <= stray < 0xC0 || stray >= 0xF8
    ensures ReadText([stray] + rest) == ['\U{FFFD}'] + ReadText(rest)
  {
    assert ([stray] + rest)[1..] == rest;
  }

  // A byte that can begin no character costs no more than itself: the text on either side survives.
  lemma {:induction false} StrayByteReplaced(s: string, stray: Byte, t: string)
    requires 0x80 <= stray < 0xC0 || stray >= 0xF8
    ensures ReadText(Encode(s) + ([stray] + Encode(t))) == s + (['\U{FFFD}'] + t)
  {
    ReadTextAfter(s, [stray] + Encode(t));
    ReadTextStray(stray, Encode(t));
    ReadTextEncode(t);
  }

  // ---- Order ----

  predicate BytesLess(a: Bytes, b: Bytes) {
    b != [] && (a == [] || a[0] < b[0] || (a[0] == b[0] && BytesLess(a[1..], b[1..])))
  }

  lemma {:induction false} BytesLessAsymmetric(a: Bytes, b: Bytes)
    requires BytesLess(a, b)
    ensures !BytesLess(b, a)
  {
    if a != [] && a[0] == b[0] {
      BytesLessAsymmetric(a[1..], b[1..]);
    }
  }

  lemma {:induction false} SamePrefix(p: Bytes, a: Bytes, b: Bytes)
    ensures BytesLess(p + a, p + b) <==> BytesLess(a, b)
  {
    if p == [] {
      assert p + a == a && p + b == b;
    } else {
      assert (p + a)[1..] == p[1..] + a && (p + b)[1..] == p[1..] + b;
      SamePrefix(p[1..], a, b);
    }
  }

  // The encodings differ at some byte, and the smaller character has the smaller byte there.
  lemma {:induction false} CharOrder(c: char, d: char) returns (k: nat)
    requires c < d
    ensures k < |EncodeChar(c)| && k < |EncodeChar(d)|
    ensures EncodeChar(c)[..k] == EncodeChar(d)[..k] && EncodeChar(c)[k] < EncodeChar(d)[k]
  {
    var a, b := EncodeChar(c), EncodeChar(d);
    k := if a[0] != b[0] then 0 else if a[1] != b[1] then 1 else if a[2] != b[2] then 2 else 3;
  }

  lemma {:induction false} CharDecides(c: char, d: char, x: Bytes, y: Bytes)
    requires c < d
    ensures BytesLess(EncodeChar(c) + x, EncodeChar(d) + y)
  {
    var a, b := EncodeChar(c), EncodeChar(d);
    var k := CharOrder(c, d);
    assert a + x == a[..k] + (a[k..] + x) && b + y == b[..k] + (b[k..] + y);
    SamePrefix(a[..k], a[k..] + x, b[k..] + y);
    assert (a[k..] + x)[0] == a[k] && (b[k..] + y)[0] == b[k];
  }

  lemma {:induction false} LessEncodes(a: string, b: string)
    requires Less(a, b)
    ensures BytesLess(Encode(a), Encode(b))
  {
    if a == [] {
    } else if a[0] < b[0] {
      CharDecides(a[0], b[0], Encode(a[1..]), Encode(b[1..]));
    } else {
      LessEncodes(a[1..], b[1..]);
      SamePrefix(EncodeChar(a[0]), Encode(a[1..]), Encode(b[1..]));
    }
  }

  // Keys sorted by character are keys sorted by byte.
  lemma {:induction false} OrderOfBytes(a: string, b: string)
    ensures Less(a, b) <==> BytesLess(Encode(a), Encode(b))
  {
    LessTotal(a, b);
    if Less(a, b) {
      LessEncodes(a, b);
    } else {
      if Less(b, a) {
        LessEncodes(b, a);
      }
      if BytesLess(Encode(a), Encode(b)) {
        BytesLessAsymmetric(Encode(a), Encode(b));
      }
    }
  }

  // The order of the scan is the order in which a store of byte keys hands them out.
  lemma {:induction false} SortedByBytes(keys: set<string>)
    ensures var ks := SortedKeys(keys);
            forall i, j :: 0 <= i < j < |ks| ==> BytesLess(Encode(ks[i]), Encode(ks[j]))
  {
    var ks := SortedKeys(keys);
    forall i, j | 0 <= i < j < |ks| ensures BytesLess(Encode(ks[i]), Encode(ks[j])) {
      OrderOfBytes(ks[i], ks[j]);
    }
  }
}
