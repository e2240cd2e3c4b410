/**
  Unicode transformation formats. Text is a sequence of Unicode scalar values (`char`).
  UTF-8 is section 3 of RFC 3629, decoded the forgiving way URL parsers do: every malformed
  stretch becomes U+FFFD. UTF-16 is section 2 of RFC 2781.
 */
module Unicode {
  import opened Wrappers

  type Byte = n: int | 0 <= n < 0x100
  type Unit = n: int | 0 <= n < 0x10000

  const REPLACEMENT: char := 0xFFFD as char

  predicate IsScalar(n: int) {
    0 <= n < 0xD800 || 0xE000 <= n < 0x110000
  }

  // ----- UTF-8 -----

  function EncodeUtf8(c: char): (bytes: seq<Byte>)
    ensures 1 <= |bytes| <= 4
  {
    var n := c as int;
    if n < 0x80 then [n]
    else if n < 0x800 then [0xC0 + n / 64, 0x80 + n % 64]
    else if n < 0x10000 then [0xE0 + n / 4096, 0x80 + n / 64 % 64, 0x80 + n % 64]
    else [0xF0 + n / 262144, 0x80 + n / 4096 % 64, 0x80 + n / 64 % 64, 0x80 + n % 64]
  }

  function EncodeAll(text: string): seq<Byte> {
    if text == "" then [] else EncodeUtf8(text[0]) + EncodeAll(text[1..])
  }

  /**
    A decoder between bytes: `needed` continuation bytes are missing, the next must lie in
    lower..upper, and `high` are the bits read so far.
   */
  datatype Partial = Partial(high: nat, needed: nat, lower: Byte, upper: Byte)

  const START := Partial(0, 0, 0x80, 0xBF)

  /** Whatever valid bytes follow, the code point will be a scalar value. */
  predicate Sound(p: Partial) {
    && p.needed <= 3
    && (p.needed > 0 ==>
          && 0x80 <= p.lower <= p.upper <= 0xBF
          && var scale := if p.needed == 1 then 1 else if p.needed == 2 then 64 else 4096;
             var first := (p.high * 64 + p.lower - 0x80) * scale;
             var last := (p.high * 64 + p.upper - 0x80 + 1) * scale - 1;
             last < 0xD800 || 0xE000 <= first <= last < 0x110000)
  }

  /** The decoder after a lead byte, or None if this byte cannot lead. */
  function Lead(b: Byte): (p: Option<Partial>)
    ensures p.Some? ==> Sound(p.value) && p.value.needed > 0
  {
    if 0xC2 <= b <= 0xDF then Some(Partial(b - 0xC0, 1, 0x80, 0xBF))
    else if 0xE0 <= b <= 0xEF then
      Some(Partial(b - 0xE0, 2, if b == 0xE0 then 0xA0 else 0x80, if b == 0xED then 0x9F else 0xBF))
    else if 0xF0 <= b <= 0xF4 then
      Some(Partial(b - 0xF0, 3, if b == 0xF0 then 0x90 else 0x80, if b == 0xF4 then 0x8F else 0xBF))
    else None
  }

  function DecodeFrom(p: Partial, bytes: seq<Byte>): string
    requires Sound(p)
    decreases |bytes|, p.needed
  {
    if bytes == [] then (if p.needed > 0 then [REPLACEMENT] else "")
    else
      var b := bytes[0];
      if p.needed == 0 then
        if b < 0x80 then [b as char] + DecodeFrom(START, bytes[1..])
        else
          match Lead(b)
          case Some(q) => DecodeFrom(q, bytes[1..])
          case None => [REPLACEMENT] + DecodeFrom(START, bytes[1..])
      else if !(p.lower <= b <= p.upper) then [REPLACEMENT] + DecodeFrom(START, bytes)
      else
        var high := p.high * 64 + (b - 0x80);
        if p.needed == 1 then [high as char] + DecodeFrom(START, bytes[1..])
        else DecodeFrom(Partial(high, p.needed - 1, 0x80, 0xBF), bytes[1..])
  }

  function DecodeUtf8(bytes: seq<Byte>): string {
    DecodeFrom(START, bytes)
  }

  lemma AcceptLead(b: Byte, rest: seq<Byte>)
    requires b >= 0x80 && Lead(b).Some?
    ensures DecodeFrom(START, [b] + rest) == DecodeFrom(Lead(b).value, rest)
  {
    assert ([b] + rest)[1..] == rest;
  }

  lemma AcceptContinuation(p: Partial, b: Byte, rest: seq<Byte>)
    requires Sound(p) && p.needed > 0 && p.lower <= b <= p.upper
    ensures var high := p.high * 64 + (b - 0x80);
            if p.needed == 1
            then IsScalar(high) && DecodeFrom(p, [b] + rest) == [high as char] + DecodeFrom(START, rest)
            else Sound(Partial(high, p.needed - 1, 0x80, 0xBF)) &&
                 DecodeFrom(p, [b] + rest) == DecodeFrom(Partial(high, p.needed - 1, 0x80, 0xBF), rest)
  {
    assert ([b] + rest)[1..] == rest;
  }

  /** The base-64 digits of a number give it back. */
  lemma Digits(n: nat)
    ensures n / 64 * 64 + n % 64 == n
    ensures n / 4096 * 64 + n / 64 % 64 == n / 64
    ensures n / 262144 * 64 + n / 4096 % 64 == n / 4096
  {
    assert n / 64 / 64 == n / 4096;
    assert n / 4096 / 64 == n / 262144;
  }

  /** The last continuation byte. */
  lemma FinishOne(p: Partial, c: char, rest: seq<Byte>)
    requires Sound(p) && p.needed == 1 && p.high == c as int / 64
    requires p.lower <= 0x80 + c as int % 64 <= p.upper
    ensures DecodeFrom(p, [0x80 + c as int % 64] + rest) == [c] + DecodeFrom(START, rest)
  {
    Digits(c as int);
    AcceptContinuation(p, 0x80 + c as int % 64, rest);
  }

  /** The last two continuation bytes. */
  lemma FinishTwo(p: Partial, c: char, rest: seq<Byte>)
    requires Sound(p) && p.needed == 2 && p.high == c as int / 4096
    requires p.lower <= 0x80 + c as int / 64 % 64 <= p.upper
    ensures DecodeFrom(p, [0x80 + c as int / 64 % 64, 0x80 + c as int % 64] + rest) == [c] + DecodeFrom(START, rest)
  {
    var n := c as int;
    Digits(n);
    var b: Byte := 0x80 + n / 64 % 64;
    var tail: seq<Byte> := [0x80 + n % 64] + rest;
    assert [b, 0x80 + n % 64] + rest == [b] + tail;
    AcceptContinuation(p, b, tail);
    FinishOne(Partial(n / 64, 1, 0x80, 0xBF), c, rest);
  }

  /** The last three continuation bytes. */
  lemma FinishThree(p: Partial, c: char, rest: seq<Byte>)
    requires Sound(p) && p.needed == 3 && p.high == c as int / 262144
    requires p.lower <= 0x80 + c as int / 4096 % 64 <= p.upper
    ensures DecodeFrom(p, [0x80 + c as int / 4096 % 64, 0x80 + c as int / 64 % 64, 0x80 + c as int % 64] + rest) ==
            [c] + DecodeFrom(START, rest)
  {
    var n := c as int;
    Digits(n);
    var b: Byte := 0x80 + n / 4096 % 64;
    var tail: seq<Byte> := [0x80 + n / 64 % 64, 0x80 + n % 64] + rest;
    assert [b, 0x80 + n / 64 % 64, 0x80 + n % 64] + rest == [b] + tail;
    AcceptContinuation(p, b, tail);
    FinishTwo(Partial(n / 4096, 2, 0x80, 0xBF), c, rest);
  }

  /** One encoded character decodes to itself, whatever follows it. */
  lemma DecodeEncoded(c: char, rest: seq<Byte>)
    ensures DecodeFrom(START, EncodeUtf8(c) + rest) == [c] + DecodeFrom(START, rest)
  {
    var n := c as int;
    var e := EncodeUtf8(c);
    Digits(n);
    if n < 0x80 {
      assert (e + rest)[1..] == rest;
    } else {
      assert e + rest == [e[0]] + (e[1..] + rest);
      AcceptLead(e[0], e[1..] + rest);
      var p := Lead(e[0]).value;
      if n < 0x800 {
        FinishOne(p, c, rest);
      } else if n < 0x10000 {
        FinishTwo(p, c, rest);
      } else {
        FinishThree(p, c, rest);
      }
    }
  }

  lemma {:induction false} Utf8RoundTrip(text: string)
    ensures DecodeUtf8(EncodeAll(text)) == text
  {
    if text != "" {
      DecodeEncoded(text[0], EncodeAll(text[1..]));
      Utf8RoundTrip(text[1..]);
    }
  }

  // ----- UTF-16 -----

  function EncodeUtf16(c: char): (units: seq<Unit>)
    ensures 1 <= |units| <= 2
  {
    var n := c as int;
    if n < 0x10000 then [n]
    else
      var m := n - 0x10000;
      [0xD800 + m / 0x400, 0xDC00 + m % 0x400]
  }

  function EncodeAllUtf16(text: string): seq<Unit> {
    if text == "" then [] else EncodeUtf16(text[0]) + EncodeAllUtf16(text[1..])
  }

  /** None: the units are ill-formed. */
  function DecodeUtf16(units: seq<Unit>): Option<string> {
    if units == [] then Some("")
    else
      var w1: int := units[0];
      if w1 < 0xD800 || w1 > 0xDFFF then
        match DecodeUtf16(units[1..])
        case Some(rest) => Some([w1 as char] + rest)
        case None => None
      else if w1 > 0xDBFF || |units| == 1 || units[1] < 0xDC00 || units[1] > 0xDFFF then None
      else
        var w2: int := units[1];
        match DecodeUtf16(units[2..])
        case Some(rest) => Some([((w1 - 0xD800) * 0x400 + (w2 - 0xDC00) + 0x10000) as char] + rest)
        case None => None
  }

  lemma {:induction false} Utf16RoundTrip(text: string)
    ensures DecodeUtf16(EncodeAllUtf16(text)) == Some(text)
  {
    if text != "" {
      var e, rest := EncodeUtf16(text[0]), EncodeAllUtf16(text[1..]);
      Utf16RoundTrip(text[1..]);
      assert text == [text[0]] + text[1..];
      if |e| == 1 {
        assert (e + rest)[1..] == rest;
      } else {
        assert (e + rest)[2..] == rest;
      }
    }
  }

  /** The encodings of one character of each length, as the standards print them. */
  lemma Samples()
    ensures EncodeUtf8('A') == [0x41] && EncodeUtf8('\U{E9}') == [0xC3, 0xA9]
    ensures EncodeUtf8('\U{20AC}') == [0xE2, 0x82, 0xAC] && EncodeUtf8('\U{1F600}') == [0xF0, 0x9F, 0x98, 0x80]
    ensures EncodeUtf16('A') == [0x41] && EncodeUtf16('\U{4F60}') == [0x4F60]
    ensures EncodeUtf16('\U{1F600}') == [0xD83D, 0xDE00]
  {
  }

  /** Malformed stretches decode to U+FFFD, and what follows them is read anew. */
  lemma MalformedSamples()
    ensures DecodeUtf8([0x80]) == [REPLACEMENT] && DecodeUtf8([0xC3]) == [REPLACEMENT]
    ensures DecodeUtf8([0xE2, 0x82, 0x41]) == [REPLACEMENT, 'A'] && DecodeUtf8([0xC0]) == [REPLACEMENT]
    ensures REPLACEMENT as int == 0xFFFD
  {
    assert [0xE2, 0x82, 0x41][1..] == [0x82, 0x41];
    assert [0x82, 0x41][1..] == [0x41];
    var p := Lead(0xE2).value;
    var q := Partial(p.high * 64 + (0x82 - 0x80), 1, 0x80, 0xBF);
    assert DecodeFrom(p, [0x82, 0x41]) == DecodeFrom(q, [0x41]);
    assert DecodeFrom(q, [0x41]) == [REPLACEMENT] + DecodeFrom(START, [0x41]);
  }
}
