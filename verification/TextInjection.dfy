/**
  Typing a received text on Windows: validation, newline normalisation, and one pair of
  key events per UTF-16 code unit.
 */
module TextInjection {
  import opened Wrappers
  import opened Unicode

  datatype Validation = Valid | TextEmpty | TextTooLong(length: nat, max: nat)

  function ValidateText(text: string, maxLength: nat): Validation {
    if text == "" then TextEmpty
    else if |text| > maxLength then TextTooLong(|text|, maxLength)
    else Valid
  }

  // ----- newlines -----

  /** Every CR LF becomes LF, scanning from the left. */
  function ReplaceCrLf(s: string): string {
    if s == "" then ""
    else if |s| >= 2 && s[0] == '\r' && s[1] == '\n' then "\n" + ReplaceCrLf(s[2..])
    else [s[0]] + ReplaceCrLf(s[1..])
  }

  function ReplaceCr(s: string): string {
    if s == "" then "" else [if s[0] == '\r' then '\n' else s[0]] + ReplaceCr(s[1..])
  }

  function NormalizeNewlines(text: string): string {
    ReplaceCr(ReplaceCrLf(text))
  }

  /** What normalisation means, in one pass: CR LF, lone CR and LF are each one newline. */
  function OnePass(s: string): string {
    if s == "" then ""
    else if s[0] == '\r' then "\n" + OnePass(if |s| >= 2 && s[1] == '\n' then s[2..] else s[1..])
    else [s[0]] + OnePass(s[1..])
  }

  lemma {:induction false} NormalizeIsOnePass(s: string)
    ensures NormalizeNewlines(s) == OnePass(s)
    decreases |s|
  {
    if s != "" {
      if |s| >= 2 && s[0] == '\r' && s[1] == '\n' {
        NormalizeIsOnePass(s[2..]);
        assert ("\n" + ReplaceCrLf(s[2..]))[1..] == ReplaceCrLf(s[2..]);
      } else {
        NormalizeIsOnePass(s[1..]);
        assert ([s[0]] + ReplaceCrLf(s[1..]))[1..] == ReplaceCrLf(s[1..]);
      }
    }
  }

  /** No carriage return survives, and the text gets no longer. */
  lemma {:induction false} NormalizedHasNoCr(s: string)
    ensures '\r' !in NormalizeNewlines(s) && |NormalizeNewlines(s)| <= |s|
    decreases |s|
  {
    NormalizeIsOnePass(s);
    if s != "" {
      var rest := if s[0] == '\r' && |s| >= 2 && s[1] == '\n' then s[2..] else s[1..];
      NormalizedHasNoCr(rest);
      NormalizeIsOnePass(rest);
    }
  }

  lemma {:induction false} NoCrUnchanged(s: string)
    requires '\r' !in s
    ensures NormalizeNewlines(s) == s
  {
    NormalizeIsOnePass(s);
    if s != "" {
      NoCrUnchanged(s[1..]);
      NormalizeIsOnePass(s[1..]);
    }
  }

  lemma NormalizeIdempotent(s: string)
    ensures NormalizeNewlines(NormalizeNewlines(s)) == NormalizeNewlines(s)
  {
    NormalizedHasNoCr(s);
    NoCrUnchanged(NormalizeNewlines(s));
  }

  // ----- characters to units -----

  predicate IsControl(c: char) {
    c as int < 0x20 || 0x7F <= c as int <= 0x9F
  }

  function ControlCharUnicode(c: char): Option<Unit> {
    if c == '\n' || c == '\r' then Some(0x000D)
    else if c == '\t' then Some(0x0009)
    else None
  }

  function CharUnits(c: char): seq<Unit> {
    if IsControl(c) then
      match ControlCharUnicode(c)
      case Some(unit) => [unit]
      case None => []
    else EncodeUtf16(c)
  }

  function TextUnits(text: string): seq<Unit> {
    if text == "" then [] else CharUnits(text[0]) + TextUnits(text[1..])
  }

  /** What the receiving application should read: newlines as CR, tabs kept, other controls dropped. */
  function Typed(text: string): string {
    if text == "" then ""
    else
      (if text[0] == '\n' then "\r"
       else if IsControl(text[0]) && text[0] != '\r' && text[0] != '\t' then ""
       else [text[0]]) +
      Typed(text[1..])
  }

  lemma {:induction false} UnitsEncodeTyped(text: string)
    ensures TextUnits(text) == EncodeAllUtf16(Typed(text))
  {
    if text != "" {
      UnitsEncodeTyped(text[1..]);
      var typed := Typed(text);
      if typed != Typed(text[1..]) || |typed| > |Typed(text[1..])| {
        assert typed[1..] == Typed(text[1..]);
      }
    }
  }

  /** The units of any text are well-formed UTF-16 and decode to what should be typed. */
  lemma UnitsDecodeToTyped(text: string)
    ensures DecodeUtf16(TextUnits(text)) == Some(Typed(text))
  {
    UnitsEncodeTyped(text);
    Utf16RoundTrip(Typed(text));
  }

  lemma {:induction false} UnitsBounded(text: string)
    ensures |TextUnits(text)| <= 2 * |text|
  {
    if text != "" {
      UnitsBounded(text[1..]);
    }
  }

  // ----- what arrives, in terms of character ranges -----

  /** Not a control character, or one that can be typed. */
  predicate Typeable(c: char) {
    0x20 <= c as int <= 0x7E || 0xA0 <= c as int || c == '\t' || c == '\n' || c == '\r'
  }

  function Keep(text: string): string {
    if text == "" then "" else (if Typeable(text[0]) then [text[0]] else "") + Keep(text[1..])
  }

  function LfToCr(text: string): string {
    if text == "" then "" else [if text[0] == '\n' then '\r' else text[0]] + LfToCr(text[1..])
  }

  lemma LfToCrFirst(c: char, rest: string)
    ensures LfToCr([c] + rest) == [if c == '\n' then '\r' else c] + LfToCr(rest)
  {
    assert ([c] + rest)[1..] == rest;
  }

  /**
    Faithful emission: what arrives is the text without the characters U+0000 to U+001F and U+007F to U+009F,
    tabs and newlines excepted, in order, each newline as U+000D.
   */
  lemma {:induction false} TypedExactly(text: string)
    ensures Typed(text) == LfToCr(Keep(text))
    ensures DecodeUtf16(TextUnits(text)) == Some(LfToCr(Keep(text)))
  {
    UnitsDecodeToTyped(text);
    if text != "" {
      TypedExactly(text[1..]);
      if Typeable(text[0]) {
        LfToCrFirst(text[0], Keep(text[1..]));
      } else {
        assert Keep(text) == Keep(text[1..]) && Typed(text) == Typed(text[1..]);
      }
    }
  }

  // ----- sending -----

  /**
    How many of the first calls, starting at call `from`, take both events: all of them, or up to the
    first that does not.
   */
  function Taken(units: seq<Unit>, from: nat, inserts: nat -> nat): nat {
    if units == [] || inserts(from) != 2 then 0 else 1 + Taken(units[1..], from + 1, inserts)
  }

  lemma {:induction false} TakenBounds(units: seq<Unit>, from: nat, inserts: nat -> nat)
    ensures Taken(units, from, inserts) <= |units|
  {
    if units != [] {
      TakenBounds(units[1..], from + 1, inserts);
    }
  }

  lemma {:induction false} TakenConcat(a: seq<Unit>, b: seq<Unit>, from: nat, inserts: nat -> nat)
    ensures Taken(a + b, from, inserts) ==
            if Taken(a, from, inserts) == |a| then |a| + Taken(b, from + |a|, inserts) else Taken(a, from, inserts)
  {
    if a == [] {
      assert a + b == b;
    } else {
      assert (a + b)[1..] == a[1..] + b;
      TakenConcat(a[1..], b, from + 1, inserts);
      TakenBounds(a[1..], from + 1, inserts);
    }
  }

  /**
    SendInput, one call per unit: `inserts(k)` is how many of its two events the k-th call of an injection
    takes. Anything but two stops the injection with an error.
   */
  method SendUnits(units: seq<Unit>, from: nat, inserts: nat -> nat) returns (sent: seq<Unit>, ok: bool)
    ensures Taken(units, from, inserts) <= |units|
    ensures sent == units[..Taken(units, from, inserts)]
    ensures ok == (Taken(units, from, inserts) == |units|)
  {
    TakenBounds(units, from, inserts);
    sent := [];
    for i := 0 to |units|
      invariant sent == units[..i]
      invariant Taken(units, from, inserts) == i + Taken(units[i..], from + i, inserts)
    {
      assert units[i..][1..] == units[i+1..];
      if inserts(from + i) != 2 {
        return sent, false;
      }
      sent := sent + [units[i]];
    }
    return sent, true;
  }

  lemma NextUnits(text: string, i: nat)
    requires i < |text|
    ensures TextUnits(text[i..]) == CharUnits(text[i]) + TextUnits(text[i+1..])
  {
    assert text[i..][1..] == text[i+1..];
  }

  /** A call that fails inside `units` stops the whole sending there. */
  lemma StopInside(before: seq<Unit>, units: seq<Unit>, rest: seq<Unit>, inserts: nat -> nat)
    requires Taken(before, 0, inserts) == |before|
    ensures var k := Taken(units, |before|, inserts); var whole := before + (units + rest);
            && k <= |units|
            && (k < |units| ==> Taken(whole, 0, inserts) == |before| + k)
            && whole[..|before| + k] == before + units[..k]
  {
    TakenBounds(units, |before|, inserts);
    TakenConcat(before, units + rest, 0, inserts);
    TakenConcat(units, rest, |before|, inserts);
  }

  lemma Reassociate(a: seq<Unit>, b: seq<Unit>, c: seq<Unit>)
    ensures a + (b + c) == a + b + c
  {
  }

  /** Where the sending stands after character i: past all its units, or stopped for good inside them. */
  lemma AfterChar(text: string, i: nat, sent: seq<Unit>, inserts: nat -> nat)
    requires i < |text| && TextUnits(text) == sent + TextUnits(text[i..]) && Taken(sent, 0, inserts) == |sent|
    ensures var units := CharUnits(text[i]); var k := Taken(units, |sent|, inserts); var whole := TextUnits(text);
            && k <= |units|
            && (k == |units| ==> whole == sent + units[..k] + TextUnits(text[i+1..]) &&
                                 Taken(sent + units[..k], 0, inserts) == |sent| + k)
            && (k < |units| ==>
                  Taken(whole, 0, inserts) == |sent| + k < |whole| && whole[..|sent| + k] == sent + units[..k])
  {
    var units, rest := CharUnits(text[i]), TextUnits(text[i+1..]);
    NextUnits(text, i);
    Reassociate(sent, units, rest);
    StopInside(sent, units, rest, inserts);
    TakenConcat(sent, units, 0, inserts);
    assert units[..|units|] == units;
  }

  /** One character; a control character without a literal unit is skipped. */
  method InjectChar(c: char, from: nat, inserts: nat -> nat) returns (sent: seq<Unit>, ok: bool)
    ensures var units := CharUnits(c); var k := Taken(units, from, inserts);
            k <= |units| && sent == units[..k] && ok == (k == |units|)
  {
    if IsControl(c) {
      var unit := ControlCharUnicode(c);
      if unit.None? {
        return [], true;
      }
      sent, ok := SendUnits([unit.value], from, inserts);
    } else {
      sent, ok := SendUnits(EncodeUtf16(c), from, inserts);
    }
  }

  /** Character by character. */
  method InjectUnicode(text: string, inserts: nat -> nat) returns (sent: seq<Unit>, ok: bool)
    ensures Taken(TextUnits(text), 0, inserts) <= |TextUnits(text)|
    ensures sent == TextUnits(text)[..Taken(TextUnits(text), 0, inserts)]
    ensures ok == (Taken(TextUnits(text), 0, inserts) == |TextUnits(text)|)
  {
    TakenBounds(TextUnits(text), 0, inserts);
    sent := [];
    assert text[0..] == text;
    ghost var whole := TextUnits(text);
    for i := 0 to |text|
      invariant whole == sent + TextUnits(text[i..])
      invariant Taken(sent, 0, inserts) == |sent|
    {
      AfterChar(text, i, sent, inserts);
      var more, done := InjectChar(text[i], |sent|, inserts);
      sent := sent + more;
      if !done {
        return sent, false;
      }
    }
    assert text[|text|..] == "";
    assert whole == sent;
    return sent, true;
  }

  datatype Outcome = Rejected(why: Validation) | Injected | SendFailed

  lemma {:induction false} StoppedWhere(units: seq<Unit>, from: nat, inserts: nat -> nat)
    ensures Taken(units, from, inserts) <= |units|
    ensures Taken(units, from, inserts) < |units| ==> inserts(from + Taken(units, from, inserts)) != 2
    ensures forall k :: from <= k < from + Taken(units, from, inserts) ==> inserts(k) == 2
  {
    if units != [] {
      StoppedWhere(units[1..], from + 1, inserts);
    }
  }

  /** The whole injection of one received text. */
  method Inject(text: string, maxLength: nat, inserts: nat -> nat) returns (sent: seq<Unit>, outcome: Outcome)
    ensures outcome.Rejected? <==> text == "" || |text| > maxLength
    ensures outcome.Rejected? ==>
              sent == [] && outcome.why == if text == "" then TextEmpty else TextTooLong(|text|, maxLength)
    ensures outcome.Injected? ==> DecodeUtf16(sent) == Some(LfToCr(Keep(OnePass(text))))
    ensures !outcome.Rejected? ==> forall k :: 0 <= k < |sent| ==> inserts(k) == 2
    ensures outcome.SendFailed? ==>
              |sent| < |TextUnits(OnePass(text))| && sent == TextUnits(OnePass(text))[..|sent|] && inserts(|sent|) != 2
    ensures |sent| <= 2 * maxLength
  {
    var validation := ValidateText(text, maxLength);
    if !validation.Valid? {
      return [], Rejected(validation);
    }
    var normalized := NormalizeNewlines(text);
    NormalizeIsOnePass(text);
    NormalizedHasNoCr(text);
    UnitsBounded(normalized);
    TypedExactly(normalized);
    StoppedWhere(TextUnits(normalized), 0, inserts);
    var ok;
    sent, ok := InjectUnicode(normalized, inserts);
    if ok {
      assert sent == TextUnits(normalized);
      outcome := Injected;
    } else {
      outcome := SendFailed;
    }
  }

  /** For a normalised text no LF reaches the application, and no control character but CR and tab does. */
  lemma {:induction false} NoOtherControlArrives(text: string)
    requires '\r' !in text
    ensures forall c :: c in Typed(text) ==> 0x20 <= c as int <= 0x7E || 0xA0 <= c as int || c == '\r' || c == '\t'
  {
    if text != "" {
      NoOtherControlArrives(text[1..]);
    }
  }

  /** How the counts change with the first character. */
  lemma CountFirst(text: string, c: char)
    requires text != ""
    ensures multiset(text)[c] == multiset(text[1..])[c] + (if text[0] == c then 1 else 0)
  {
    assert text == [text[0]] + text[1..];
  }

  /** For a normalised text every newline reaches the application as U+000D, and every tab as itself. */
  lemma {:induction false} NewlinesArriveAsCr(text: string)
    requires '\r' !in text
    ensures multiset(Typed(text))['\r'] == multiset(text)['\n']
    ensures multiset(Typed(text))['\t'] == multiset(text)['\t']
  {
    if text != "" {
      NewlinesArriveAsCr(text[1..]);
      CountFirst(text, '\n');
      CountFirst(text, '\t');
      var rest := Typed(text[1..]);
      if Typed(text) != rest {
        var c := if text[0] == '\n' then '\r' else text[0];
        assert Typed(text) == [c] + rest;
        CountFirst([c] + rest, '\r');
        CountFirst([c] + rest, '\t');
      }
    }
  }
}
