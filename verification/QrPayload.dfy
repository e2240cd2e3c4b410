/**
  The pairing QR code: the desktop prints dropvoice://pair?code=..&device=..&name=.., with the
  name percent-encoded (sections 2.1 and 2.3 of RFC 3986); the phone takes it apart again with a
  URL parser and its query parameters.
 */
module QrPayload {
  import opened Wrappers
  import opened Unicode

  // ----- printing -----

  predicate Unreserved(c: char) {
    'a' <= c <= 'z' || 'A' <= c <= 'Z' || '0' <= c <= '9' || c == '-' || c == '_' || c == '.' || c == '~'
  }

  function HexDigit(n: int): char
    requires 0 <= n < 16
  {
    "0123456789ABCDEF"[n]
  }

  function HexBytes(bytes: seq<Byte>): string {
    if bytes == [] then "" else ['%', HexDigit(bytes[0] / 16), HexDigit(bytes[0] % 16)] + HexBytes(bytes[1..])
  }

  function PercentEncode(name: string): string {
    if name == "" then ""
    else (if Unreserved(name[0]) then [name[0]] else HexBytes(EncodeUtf8(name[0]))) + PercentEncode(name[1..])
  }

  /** `code` is None when no pairing code has been issued yet. */
  function BuildQrPayload(code: Option<string>, device: string, name: string): string {
    "dropvoice://pair?code=" + (if code.Some? then code.value else "") + "&device=" + device +
    "&name=" + PercentEncode(name)
  }

  // ----- parsing -----

  /** Up to the first `c`; all of it if there is none. */
  function Before(s: string, c: char): string {
    if s == "" || s[0] == c then "" else [s[0]] + Before(s[1..], c)
  }

  /** Behind the first `c`. */
  function Behind(s: string, c: char): Option<string> {
    if s == "" then None
    else if s[0] == c then Some(s[1..])
    else Behind(s[1..], c)
  }

  lemma {:induction false} BehindShorter(s: string, c: char)
    ensures Behind(s, c).Some? ==> |Behind(s, c).value| < |s|
  {
    if s != "" && s[0] != c {
      BehindShorter(s[1..], c);
    }
  }

  function Split(s: string, c: char): (parts: seq<string>)
    decreases |s|
  {
    match Behind(s, c)
    case None => [s]
    case Some(rest) => BehindShorter(s, c); [Before(s, c)] + Split(rest, c)
  }

  function HexValue(b: int): Option<int> {
    if 0x30 <= b <= 0x39 then Some(b - 0x30)
    else if 0x41 <= b <= 0x46 then Some(b - 0x41 + 10)
    else if 0x61 <= b <= 0x66 then Some(b - 0x61 + 10)
    else None
  }

  /** A percent sign without two hex digits stands for itself. */
  function PercentDecode(bytes: seq<Byte>): seq<Byte> {
    if bytes == [] then []
    else if bytes[0] == 0x25 && |bytes| > 2 && HexValue(bytes[1]).Some? && HexValue(bytes[2]).Some?
    then [HexValue(bytes[1]).value * 16 + HexValue(bytes[2]).value] + PercentDecode(bytes[3..])
    else [bytes[0]] + PercentDecode(bytes[1..])
  }

  function PlusToSpace(s: string): string {
    if s == "" then "" else [if s[0] == '+' then ' ' else s[0]] + PlusToSpace(s[1..])
  }

  /** A name or value of application/x-www-form-urlencoded. */
  function DecodeComponent(s: string): string {
    DecodeUtf8(PercentDecode(EncodeAll(PlusToSpace(s))))
  }

  /** The value of the first pair named `key`; empty pairs are skipped. */
  function Get(pairs: seq<string>, key: string): Option<string> {
    if pairs == [] then None
    else if pairs[0] != "" && DecodeComponent(Before(pairs[0], '=')) == key then
      Some(DecodeComponent(var value := Behind(pairs[0], '='); if value.Some? then value.value else ""))
    else Get(pairs[1..], key)
  }

  predicate IsAlpha(c: char) {
    'a' <= c <= 'z' || 'A' <= c <= 'Z'
  }

  predicate IsScheme(s: string) {
    s != "" && IsAlpha(s[0]) &&
    forall i :: 0 <= i < |s| ==> IsAlpha(s[i]) || '0' <= s[i] <= '9' || s[i] == '+' || s[i] == '-' || s[i] == '.'
  }

  function ToLower(s: string): string {
    if s == "" then "" else [if 'A' <= s[0] <= 'Z' then (s[0] as int + 32) as char else s[0]] + ToLower(s[1..])
  }

  datatype Parsed = Parsed(code: string, device: string, name: Option<string>)

  function FromPairs(pairs: seq<string>): Option<Parsed> {
    var code, device, name := Get(pairs, "code"), Get(pairs, "device"), Get(pairs, "name");
    if code.None? || code.value == "" || device.None? || device.value == "" then None
    else Some(Parsed(code.value, device.value, name))
  }

  /** What is behind the colon of a payload with the application's scheme. */
  function FromRest(rest: string): Option<Parsed> {
    var query := Behind(Before(rest, '#'), '?');
    FromPairs(Split(if query.Some? then query.value else "", '&'))
  }

  /** None: not a pairing payload. */
  function ParseQrPayload(payload: string): Option<Parsed> {
    var scheme := Before(payload, ':');
    var rest := Behind(payload, ':');
    if rest.None? || !IsScheme(scheme) || ToLower(scheme) != "dropvoice" then None
    else
      FromRest(rest.value)
  }

  // ----- the round trip -----

  predicate Lacks(s: string, c: char) {
    forall i :: 0 <= i < |s| ==> s[i] != c
  }

  lemma {:induction false} FirstOccurrence(p: string, c: char, s: string)
    requires Lacks(p, c)
    ensures Before(p + [c] + s, c) == p && Behind(p + [c] + s, c) == Some(s)
  {
    var whole := p + [c] + s;
    if p == "" {
      assert whole == [c] + s;
      assert whole[1..] == s;
    } else {
      assert whole[1..] == p[1..] + [c] + s;
      FirstOccurrence(p[1..], c, s);
    }
  }

  lemma {:induction false} NoOccurrence(p: string, c: char)
    requires Lacks(p, c)
    ensures Before(p, c) == p && Behind(p, c) == None && Split(p, c) == [p]
  {
    if p != "" {
      NoOccurrence(p[1..], c);
    }
  }

  lemma SplitFirst(p: string, c: char, s: string)
    requires Lacks(p, c)
    ensures Split(p + [c] + s, c) == [p] + Split(s, c)
  {
    FirstOccurrence(p, c, s);
  }

  predicate AllUnreserved(s: string) {
    forall i :: 0 <= i < |s| ==> Unreserved(s[i])
  }

  lemma {:induction false} EncodeAllConcat(s: string, t: string)
    ensures EncodeAll(s + t) == EncodeAll(s) + EncodeAll(t)
  {
    if s == "" {
      assert s + t == t;
    } else {
      assert (s + t)[1..] == s[1..] + t;
      EncodeAllConcat(s[1..], t);
    }
  }

  lemma HexDigitValue(n: int)
    requires 0 <= n < 16
    ensures HexDigit(n) as int < 0x80 && HexValue(HexDigit(n) as int) == Some(n)
    ensures Unreserved(HexDigit(n))
  {
  }

  lemma OneAscii(c: char, s: string)
    requires c as int < 0x80
    ensures EncodeAll([c] + s) == [c as int] + EncodeAll(s)
  {
    assert ([c] + s)[1..] == s;
  }

  lemma ThreeAscii(a: char, b: char, c: char, s: string)
    requires a as int < 0x80 && b as int < 0x80 && c as int < 0x80
    ensures EncodeAll([a, b, c] + s) == [a as int, b as int, c as int] + EncodeAll(s)
  {
    assert [a, b, c] + s == [a] + ([b] + ([c] + s));
    OneAscii(a, [b] + ([c] + s));
    OneAscii(b, [c] + s);
    OneAscii(c, s);
  }

  lemma OneEscape(b: Byte, tail: seq<Byte>)
    ensures var hi, lo := HexDigit(b / 16) as int, HexDigit(b % 16) as int;
            hi < 0x80 && lo < 0x80 && PercentDecode([0x25, hi, lo] + tail) == [b] + PercentDecode(tail)
  {
    HexDigitValue(b / 16);
    HexDigitValue(b % 16);
    var hi, lo := HexDigit(b / 16) as int, HexDigit(b % 16) as int;
    assert ([0x25, hi, lo] + tail)[3..] == tail;
  }

  /** The three characters printed for the first byte. */
  lemma FirstHexByte(bytes: seq<Byte>)
    requires bytes != []
    ensures EncodeAll(HexBytes(bytes)) ==
            [0x25, HexDigit(bytes[0] / 16) as int, HexDigit(bytes[0] % 16) as int] + EncodeAll(HexBytes(bytes[1..]))
  {
    ThreeAscii('%', HexDigit(bytes[0] / 16), HexDigit(bytes[0] % 16), HexBytes(bytes[1..]));
  }

  lemma Regroup(bytes: seq<Byte>, rest: seq<Byte>)
    requires bytes != []
    ensures [bytes[0]] + (bytes[1..] + rest) == bytes + rest
  {
  }

  /** Hex-encoded bytes decode to themselves, whatever follows. */
  lemma {:induction false} HexBytesDecode(bytes: seq<Byte>, rest: seq<Byte>)
    ensures PercentDecode(EncodeAll(HexBytes(bytes)) + rest) == bytes + PercentDecode(rest)
  {
    if bytes == [] {
      assert EncodeAll(HexBytes(bytes)) + rest == rest;
    } else {
      var front := [0x25, HexDigit(bytes[0] / 16) as int, HexDigit(bytes[0] % 16) as int];
      var tail := EncodeAll(HexBytes(bytes[1..])) + rest;
      FirstHexByte(bytes);
      assert EncodeAll(HexBytes(bytes)) + rest == front + tail;
      OneEscape(bytes[0], tail);
      HexBytesDecode(bytes[1..], rest);
      Regroup(bytes, PercentDecode(rest));
    }
  }

  /** Percent-decoding the printed name gives the UTF-8 bytes of the name. */
  lemma {:induction false} PrintedNameDecodes(name: string)
    ensures PercentDecode(EncodeAll(PercentEncode(name))) == EncodeAll(name)
  {
    if name != "" {
      var rest := PercentEncode(name[1..]);
      PrintedNameDecodes(name[1..]);
      if Unreserved(name[0]) {
        assert ([name[0]] + rest)[1..] == rest;
        var n := name[0] as int;
        assert EncodeAll([name[0]] + rest) == [n] + EncodeAll(rest);
        assert ([n] + EncodeAll(rest))[1..] == EncodeAll(rest);
      } else {
        EncodeAllConcat(HexBytes(EncodeUtf8(name[0])), rest);
        HexBytesDecode(EncodeUtf8(name[0]), EncodeAll(rest));
      }
    }
  }

  predicate Printed(c: char) {
    Unreserved(c) || c == '%'
  }

  lemma {:induction false} HexBytesPrinted(bytes: seq<Byte>)
    ensures forall i :: 0 <= i < |HexBytes(bytes)| ==> Printed(HexBytes(bytes)[i])
  {
    if bytes != [] {
      HexBytesPrinted(bytes[1..]);
      HexDigitValue(bytes[0] / 16);
      HexDigitValue(bytes[0] % 16);
    }
  }

  /** Nothing but unreserved characters and percent signs is printed. */
  lemma {:induction false} NamePrinted(name: string)
    ensures forall i :: 0 <= i < |PercentEncode(name)| ==> Printed(PercentEncode(name)[i])
  {
    if name != "" {
      NamePrinted(name[1..]);
      HexBytesPrinted(EncodeUtf8(name[0]));
    }
  }

  lemma {:induction false} NoPlus(s: string)
    requires Lacks(s, '+')
    ensures PlusToSpace(s) == s
  {
    if s != "" {
      NoPlus(s[1..]);
    }
  }

  lemma NameComponent(name: string)
    ensures DecodeComponent(PercentEncode(name)) == name
  {
    NamePrinted(name);
    NoPlus(PercentEncode(name));
    PrintedNameDecodes(name);
    Utf8RoundTrip(name);
  }

  lemma {:induction false} UnreservedUnchanged(s: string)
    requires AllUnreserved(s)
    ensures PercentEncode(s) == s
  {
    if s != "" {
      UnreservedUnchanged(s[1..]);
    }
  }

  lemma PlainComponent(s: string)
    requires AllUnreserved(s)
    ensures DecodeComponent(s) == s
  {
    UnreservedUnchanged(s);
    NameComponent(s);
  }

  /** One key=value pair, with a plain key. */
  lemma PairDecodes(key: string, value: string)
    requires AllUnreserved(key) && key != ""
    ensures Get([key + "=" + value], key) == Some(DecodeComponent(value))
    ensures DecodeComponent(Before(key + "=" + value, '=')) == key
    ensures Behind(key + "=" + value, '=') == Some(value)
  {
    assert key + "=" + value == key + ['='] + value;
    FirstOccurrence(key, '=', value);
    PlainComponent(key);
  }

  lemma SkipsPair(key: string, value: string, rest: seq<string>, other: string)
    requires AllUnreserved(key) && key != "" && key != other
    ensures Get([key + "=" + value] + rest, other) == Get(rest, other)
  {
    PairDecodes(key, value);
    assert ([key + "=" + value] + rest)[1..] == rest;
  }

  lemma FindsPair(key: string, value: string, rest: seq<string>)
    requires AllUnreserved(key) && key != ""
    ensures Get([key + "=" + value] + rest, key) == Some(DecodeComponent(value))
  {
    PairDecodes(key, value);
  }

  /** The three parameters of a payload. */
  lemma ParametersFound(code: string, device: string, name: string)
    ensures var pairs := ["code=" + code, "device=" + device, "name=" + name];
            && Get(pairs, "code") == Some(DecodeComponent(code))
            && Get(pairs, "device") == Some(DecodeComponent(device))
            && Get(pairs, "name") == Some(DecodeComponent(name))
  {
    var none: seq<string> := [];
    var last := ["name=" + name];
    var two := ["device=" + device] + last;
    assert ["code=" + code, "device=" + device, "name=" + name] == ["code=" + code] + two;
    assert "code=" + code == "code" + "=" + code;
    assert "device=" + device == "device" + "=" + device;
    assert "name=" + name == "name" + "=" + name;
    assert last == ["name" + "=" + name] + none;
    FindsPair("code", code, two);
    SkipsPair("code", code, two, "device");
    FindsPair("device", device, last);
    SkipsPair("code", code, two, "name");
    SkipsPair("device", device, last, "name");
    FindsPair("name", name, none);
  }

  lemma LacksConcat(s: string, t: string, c: char)
    requires Lacks(s, c) && Lacks(t, c)
    ensures Lacks(s + t, c)
  {
  }

  lemma ThreeParts(a: string, b: string, c: string)
    requires Lacks(a, '&') && Lacks(b, '&') && Lacks(c, '&')
    ensures Split(a + ['&'] + (b + ['&'] + c), '&') == [a, b, c]
  {
    SplitFirst(a, '&', b + ['&'] + c);
    SplitFirst(b, '&', c);
    NoOccurrence(c, '&');
  }

  /** The scheme and the query of a payload. */
  lemma QueryCut(query: string)
    requires Lacks(query, '#')
    ensures var payload := "dropvoice" + [':'] + ("//pair" + ['?'] + query);
            && Before(payload, ':') == "dropvoice" && Behind(payload, ':').Some?
            && Behind(Before(Behind(payload, ':').value, '#'), '?') == Some(query)
  {
    var rest := "//pair" + ['?'] + query;
    FirstOccurrence("dropvoice", ':', rest);
    assert Lacks(rest, '#');
    NoOccurrence(rest, '#');
    FirstOccurrence("//pair", '?', query);
  }

  /** How the phone cuts up a payload whose values hold no separators. */
  lemma PayloadSplits(code: string, device: string, name: string)
    requires Lacks(code, '&') && Lacks(device, '&') && Lacks(name, '&')
    requires Lacks(code, '#') && Lacks(device, '#') && Lacks(name, '#')
    ensures var payload := "dropvoice://pair?code=" + code + "&device=" + device + "&name=" + name;
            && Before(payload, ':') == "dropvoice" && Behind(payload, ':').Some?
            && var query := Behind(Before(Behind(payload, ':').value, '#'), '?');
               && query.Some?
               && Split(query.value, '&') == ["code=" + code, "device=" + device, "name=" + name]
  {
    var query := "code=" + code + ['&'] + ("device=" + device + ['&'] + ("name=" + name));
    assert "dropvoice://pair?code=" + code + "&device=" + device + "&name=" + name ==
           "dropvoice" + [':'] + ("//pair" + ['?'] + query);
    LacksConcat("device=" + device + ['&'], "name=" + name, '#');
    LacksConcat("code=" + code + ['&'], "device=" + device + ['&'] + ("name=" + name), '#');
    QueryCut(query);
    ThreeParts("code=" + code, "device=" + device, "name=" + name);
  }

  lemma {:induction false} LowerUnchanged(s: string)
    requires forall i :: 0 <= i < |s| ==> 'a' <= s[i] <= 'z'
    ensures ToLower(s) == s
  {
    if s != "" {
      LowerUnchanged(s[1..]);
    }
  }

  lemma DropvoiceScheme()
    ensures IsScheme("dropvoice") && ToLower("dropvoice") == "dropvoice"
  {
    LowerUnchanged("dropvoice");
  }

  /**
    The round trip: for any name at all, empty ones included, and any code and device made of
    unreserved characters (digits, and the hex digits and hyphens of a UUID, are), the phone reads
    exactly what the desktop printed.
   */
  lemma QrRoundTrip(code: string, device: string, name: string)
    requires AllUnreserved(code) && AllUnreserved(device) && code != "" && device != ""
    ensures ParseQrPayload(BuildQrPayload(Some(code), device, name)) == Some(Parsed(code, device, Some(name)))
  {
    NamePrinted(name);
    PayloadSplits(code, device, PercentEncode(name));
    ParametersFound(code, device, PercentEncode(name));
    PlainComponent(code);
    PlainComponent(device);
    NameComponent(name);
    DropvoiceScheme();
  }

  /** Before a code is issued the desktop prints a payload that the phone refuses. */
  lemma NoCodeNoPairing(device: string, name: string)
    requires AllUnreserved(device)
    ensures ParseQrPayload(BuildQrPayload(None, device, name)) == None
  {
    NamePrinted(name);
    PayloadSplits("", device, PercentEncode(name));
    ParametersFound("", device, PercentEncode(name));
    PlainComponent("");
  }

  /** Nor does it read one without a device. */
  lemma NoDeviceNoPairing(code: string, name: string)
    requires AllUnreserved(code)
    ensures ParseQrPayload(BuildQrPayload(Some(code), "", name)) == None
  {
    NamePrinted(name);
    PayloadSplits(code, "", PercentEncode(name));
    ParametersFound(code, "", PercentEncode(name));
    PlainComponent("");
  }

  /** Different pairings never print the same payload. */
  lemma PayloadInjective(c: string, d: string, n: string, e: string, f: string, m: string)
    requires AllUnreserved(c) && AllUnreserved(d) && c != "" && d != ""
    requires AllUnreserved(e) && AllUnreserved(f) && e != "" && f != ""
    requires BuildQrPayload(Some(c), d, n) == BuildQrPayload(Some(e), f, m)
    ensures c == e && d == f && n == m
  {
    QrRoundTrip(c, d, n);
    QrRoundTrip(e, f, m);
  }

  // ----- what else the phone reads, and what it refuses -----

  /** The same letters, each in either case. */
  predicate InSomeCase(s: string, lower: string) {
    |s| == |lower| && forall i :: 0 <= i < |s| ==> s[i] == lower[i] || s[i] as int + 32 == lower[i] as int
  }

  lemma {:induction false} LowerExactly(s: string, lower: string)
    requires forall i :: 0 <= i < |lower| ==> 'a' <= lower[i] <= 'z'
    ensures ToLower(s) == lower <==> InSomeCase(s, lower)
  {
    if s != "" && lower != "" {
      LowerExactly(s[1..], lower[1..]);
      var first := if 'A' <= s[0] <= 'Z' then (s[0] as int + 32) as char else s[0];
      assert ToLower(s) == lower <==> first == lower[0] && ToLower(s[1..]) == lower[1..] by {
        assert ToLower(s) == [first] + ToLower(s[1..]);
        assert lower == [lower[0]] + lower[1..];
        if ToLower(s) == lower {
          assert ToLower(s)[1..] == lower[1..];
        }
      }
      assert InSomeCase(s, lower) ==> InSomeCase(s[1..], lower[1..]);
      assert InSomeCase(s[1..], lower[1..]) && first == lower[0] ==> InSomeCase(s, lower) by {
        assert forall i :: 1 <= i < |s| ==> s[i] == s[1..][i - 1];
        assert forall i :: 1 <= i < |lower| ==> lower[i] == lower[1..][i - 1];
      }
    }
  }

  lemma {:induction false} SomeCaseIsScheme(scheme: string)
    requires InSomeCase(scheme, "dropvoice")
    ensures IsScheme(scheme)
  {
    forall i | 0 <= i < |scheme|
      ensures IsAlpha(scheme[i])
    {
      assert 'a' <= "dropvoice"[i] <= 'z';
    }
  }

  /** Only the scheme of the application is read, in any case of its letters; every other payload is refused. */
  lemma {:induction false} SchemeDecides(scheme: string, rest: string)
    requires Lacks(scheme, ':')
    ensures ParseQrPayload(scheme + [':'] + rest) ==
            if InSomeCase(scheme, "dropvoice") then FromRest(rest) else None
  {
    FirstOccurrence(scheme, ':', rest);
    LowerExactly(scheme, "dropvoice");
    if InSomeCase(scheme, "dropvoice") {
      SomeCaseIsScheme(scheme);
    }
  }

  lemma {:induction false} ReadsQuery(query: string)
    requires Lacks(query, '#')
    ensures ParseQrPayload("dropvoice" + [':'] + ("//pair" + ['?'] + query)) == FromPairs(Split(query, '&'))
  {
    QueryCut(query);
    DropvoiceScheme();
  }

  /** A fragment is no part of what is read. */
  lemma {:induction false} FragmentIgnored(query: string, fragment: string)
    requires Lacks(query, '#')
    ensures ParseQrPayload("dropvoice" + [':'] + ("//pair" + ['?'] + query + ['#'] + fragment)) ==
            FromPairs(Split(query, '&'))
  {
    var front := "//pair" + ['?'] + query;
    assert Lacks(front, '#');
    FirstOccurrence("dropvoice", ':', front + ['#'] + fragment);
    FirstOccurrence(front, '#', fragment);
    FirstOccurrence("//pair", '?', query);
    DropvoiceScheme();
  }

  /** Without the parameter of the device a payload is refused. */
  lemma {:induction false} DeviceIsRequired(code: string)
    requires AllUnreserved(code)
    ensures ParseQrPayload("dropvoice" + [':'] + ("//pair" + ['?'] + ("code=" + code))) == None
  {
    var none: seq<string> := [];
    var a := "code=" + code;
    ReadsQuery(a);
    NoOccurrence(a, '&');
    assert a == "code" + "=" + code && [a] == [a] + none;
    SkipsPair("code", code, none, "device");
  }

  lemma {:induction false} TwoPairs(code: string, device: string)
    ensures var pairs := ["code=" + code, "device=" + device];
            && Get(pairs, "code") == Some(DecodeComponent(code))
            && Get(pairs, "device") == Some(DecodeComponent(device))
            && Get(pairs, "name") == None
  {
    var none: seq<string> := [];
    var a, b := "code=" + code, "device=" + device;
    assert a == "code" + "=" + code && b == "device" + "=" + device;
    assert [a, b] == [a] + [b] && [b] == [b] + none;
    FindsPair("code", code, [b]);
    SkipsPair("code", code, [b], "device");
    FindsPair("device", device, none);
    SkipsPair("code", code, [b], "name");
    SkipsPair("device", device, none, "name");
  }

  /** The name may be missing. */
  lemma {:induction false} NameIsOptional(code: string, device: string)
    requires AllUnreserved(code) && AllUnreserved(device) && code != "" && device != ""
    ensures var query := "code=" + code + ['&'] + ("device=" + device);
            ParseQrPayload("dropvoice" + [':'] + ("//pair" + ['?'] + query)) == Some(Parsed(code, device, None))
  {
    var a, b := "code=" + code, "device=" + device;
    LacksConcat(a + ['&'], b, '#');
    ReadsQuery(a + ['&'] + b);
    SplitFirst(a, '&', b);
    NoOccurrence(b, '&');
    TwoPairs(code, device);
    PlainComponent(code);
    PlainComponent(device);
  }

  lemma {:induction false} PlusToSpaceExactly(s: string)
    ensures |PlusToSpace(s)| == |s|
    ensures forall i :: 0 <= i < |s| ==> PlusToSpace(s)[i] == if s[i] == '+' then ' ' else s[i]
  {
    if s != "" {
      PlusToSpaceExactly(s[1..]);
    }
  }

  lemma {:induction false} NothingEscaped(bytes: seq<Byte>)
    requires forall i :: 0 <= i < |bytes| ==> bytes[i] != 0x25
    ensures PercentDecode(bytes) == bytes
  {
    if bytes != [] {
      NothingEscaped(bytes[1..]);
    }
  }

  lemma {:induction false} NoPercentByte(s: string)
    requires Lacks(s, '%')
    ensures forall i :: 0 <= i < |EncodeAll(s)| ==> EncodeAll(s)[i] != 0x25
  {
    if s != "" {
      NoPercentByte(s[1..]);
      assert forall b :: b in EncodeUtf8(s[0]) ==> b != 0x25;
    }
  }

  /** A value without escapes reads as itself, each plus sign as a space. */
  lemma {:induction false} UnescapedComponent(s: string)
    requires Lacks(s, '%')
    ensures |DecodeComponent(s)| == |s|
    ensures forall i :: 0 <= i < |s| ==> DecodeComponent(s)[i] == if s[i] == '+' then ' ' else s[i]
  {
    PlusToSpaceExactly(s);
    NoPercentByte(PlusToSpace(s));
    NothingEscaped(EncodeAll(PlusToSpace(s)));
    Utf8RoundTrip(PlusToSpace(s));
  }

  /** Letters, digits and the four unreserved marks are printed as they are. */
  lemma {:induction false} PlainNamePrintedPlain(name: string)
    requires forall c :: c in name ==>
               'a' <= c <= 'z' || 'A' <= c <= 'Z' || '0' <= c <= '9' || c == '-' || c == '.' || c == '_' || c == '~'
    ensures PercentEncode(name) == name
  {
    assert forall i :: 0 <= i < |name| ==> name[i] in name;
    UnreservedUnchanged(name);
  }

  /** Everything else as upper-case escapes of its UTF-8 bytes. */
  lemma {:induction false} EscapeSample()
    ensures PercentEncode("\U{E9}") == "%C3%A9"
  {
    Samples();
    assert "\U{E9}"[1..] == "";
    var bytes: seq<Byte> := [0xC3, 0xA9];
    assert bytes[1..] == [0xA9];
    assert [0xA9][1..] == [];
    assert HexBytes([0xA9]) == "%A9";
    assert HexBytes(bytes) == "%C3" + "%A9";
  }

  lemma {:induction false} PayloadSample()
    ensures BuildQrPayload(Some("012345"), "d-1", "PC") == "dropvoice://pair?code=012345&device=d-1&name=PC"
  {
    PlainNamePrintedPlain("PC");
  }

  /** A percent sign without two hex digits behind it stands for itself. */
  lemma {:induction false} LonePercent(rest: seq<Byte>)
    requires |rest| < 2 || HexValue(rest[0]).None? || HexValue(rest[1]).None?
    ensures PercentDecode([0x25] + rest) == [0x25] + PercentDecode(rest)
  {
    assert ([0x25] + rest)[1..] == rest;
  }

  function LowerHexDigit(n: int): Byte
    requires 0 <= n < 16
  {
    if n < 10 then 0x30 + n else 0x61 + n - 10
  }

  /** Escapes in lower case read like those in upper case. */
  lemma {:induction false} LowerCaseEscape(b: Byte, rest: seq<Byte>)
    ensures PercentDecode([0x25, LowerHexDigit(b / 16), LowerHexDigit(b % 16)] + rest) == [b] + PercentDecode(rest)
  {
    var bytes := [0x25, LowerHexDigit(b / 16), LowerHexDigit(b % 16)] + rest;
    assert bytes[3..] == rest;
  }

  /** A key without an equals sign has the empty value. */
  lemma {:induction false} ValuelessPair(key: string, rest: seq<string>)
    requires AllUnreserved(key) && key != ""
    ensures Get([key] + rest, key) == Some("")
  {
    NoOccurrence(key, '=');
    PlainComponent(key);
    PlainComponent("");
  }
}
