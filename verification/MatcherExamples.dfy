/** Filters that do not come back from their printed form, in a small lawful world. */
module MatcherExamples {
  import opened MatcherSyntax
  import opened MatcherParser
  import opened MatcherRoundTrip

  /** 1e21, and how JavaScript prints that number. */
  const TYPED: Text := [0x31, 0x65, 0x32, 0x31]
  const PRINTED: Text := [0x31, 0x65, 0x2B, 0x32, 0x31]

  /** -0 */
  const MINUS_ZERO: Text := [0x2D, 0x30]

  /** A letter with two cases that takes two units: U+10400. */
  const PAIR: Text := [0xD801, 0xDC00]

  predicate AsciiLetter(u: Unit) { 0x41 <= u <= 0x5A || 0x61 <= u <= 0x7A }

  predicate AllDigits(s: Text) { forall i | 0 <= i < |s| :: 0x30 <= s[i] <= 0x39 }

  predicate Numeric(s: Text) { AllDigits(s) || s == TYPED || s == PRINTED || s == MINUS_ZERO }

  function Canonical(s: Text): Text {
    if s == TYPED then PRINTED else if s == [] || s == MINUS_ZERO then [0x30] else s
  }

  /** ASCII letters and one more, spaces, digits, one number with an exponent, and -0. */
  function Small(): Js {
    Js((u: Unit) => AsciiLetter(u), (a: Unit, b: Unit) => [a, b] == PAIR, (u: Unit) => u == SPACE,
       (s: Text) => Numeric(s),
       (s: Text) => Canonical(s), (s: Text) => s == MINUS_ZERO, (s: Text) => true, (s: Text) => s)
  }

  lemma SmallIsLawful()
    ensures Lawful(Small())
  {
    hide LawfulNumber, AllDigits, Numeric, Canonical;
    var js := Small();
    assert js.numeric([]) by {
      NothingIsNumeric();
    }
    forall s: Text | js.numeric(s)
      ensures LawfulNumber(js, js.canonical(s)) && !js.negativeZero(js.canonical(s)) && QUOTE !in s && BACKSLASH !in s
      ensures STAR !in s
    {
      NumberIsLawful(s);
    }
  }

  lemma NothingIsNumeric()
    ensures Numeric([])
  {
  }

  lemma NumberIsLawful(s: Text)
    requires Numeric(s)
    ensures LawfulNumber(Small(), Canonical(s)) && Canonical(s) != MINUS_ZERO && QUOTE !in s && BACKSLASH !in s
    ensures STAR !in s
  {
    if s == TYPED || s == PRINTED {
      PrintedIsLawful();
    } else {
      assert forall u: Unit | u in Canonical(s) :: 0x30 <= u <= 0x39;
      DigitsAreLawful(Canonical(s));
      assert MINUS_ZERO[0] == 0x2D;
    }
  }

  lemma DigitsAreLawful(c: Text)
    requires c != [] && AllDigits(c)
    ensures LawfulNumber(Small(), c)
  {
    assert AllRaw(Small(), c);
    assert TYPED[1] == 0x65 && PRINTED[1] == 0x65 && MINUS_ZERO[0] == 0x2D;
  }

  lemma PrintedIsLawful()
    ensures LawfulNumber(Small(), PRINTED) && !AllRaw(Small(), PRINTED)
  {
    var js := Small();
    assert !Raw(js, PRINTED[2]);
    var k := RawLength(js, PRINTED);
    assert k < |PRINTED| && Raw(js, PRINTED[0]) && Raw(js, PRINTED[1]);
    assert PRINTED[..k][k - 1] == PRINTED[k - 1];
    assert k == 2;
    assert PRINTED[..2] == [0x31, 0x65];
    assert !AllDigits([0x31, 0x65]) by {
      assert [0x31, 0x65][1] == 0x65;
    }
  }

  /** Reading `>` and a raw text as a comparison. */
  lemma ReadsComparison(js: Js, number: Text)
    requires Lawful(js) && number != [] && AllRaw(js, number) && js.numeric(number)
    ensures var text := [GREATER] + number;
      Parse(js, text) == Success(|text|, Comparison(Greater, js.canonical(number), js.negativeZero(number)))
  {
    var text := [GREATER] + number;
    var t := Comparison(Greater, number, false);
    assert text[0] == GREATER && text[1..1 + |number|] == number && number[0] == text[1];
    RawIsPlain(js, number[0]);
    assert OperatorAt(text, 0) == Success(1, Greater);
    RawUntil(js, number, text, 1);
    OtherStarts(js, text, 0);
    var found := Comparison(Greater, js.canonical(number), js.negativeZero(number));
    assert Comparisons(js, text, 0) == Success(|text|, found);
    assert Alternatives(js, text, 0) == Success(|text|, found);
    WholeTerm(js, text, found);
  }

  /** A text that is one term from end to end. */
  lemma WholeTerm(js: Js, text: Text, t: Node)
    requires Lawful(js) && text != [] && !js.space(text[0]) && Alternatives(js, text, 0) == Success(|text|, t)
    ensures Parse(js, text) == Success(|text|, t)
  {
    hide Alternatives;
    assert WsEnd(js, text, 0) == 0 && WsEnd(js, text, |text|) == |text|;
    assert Term(js, text, 0) == Success(|text|, t);
    NoTerm(js, text, |text|);
    assert Repeat(js, text, |text|) == Success(|text|, []);
    assert [t] + [] == [t];
    assert Repeat(js, text, 0) == Success(|text|, [t]);
  }

  /** `>1e21` prints as `>1e+21`, which does not parse. */
  lemma ExponentLost()
    ensures var js, text := Small(), [GREATER] + TYPED;
      && Parse(js, text) == Success(|text|, Comparison(Greater, PRINTED, false))
      && !Parse(js, Show(js, Comparison(Greater, PRINTED, false), false)).Success?
  {
    SmallIsLawful();
    var js, text := Small(), [GREATER] + TYPED;
    ReadsComparison(js, TYPED);
    PrintedIsLawful();
    RoundTrip(js, text);
  }

  /** `>-0` prints as `>0`, which parses to another comparison. */
  lemma NegativeZeroLost()
    ensures var js, text, zero := Small(), [GREATER] + MINUS_ZERO, [0x30];
      && Parse(js, text) == Success(|text|, Comparison(Greater, zero, true))
      && Parse(js, Show(js, Comparison(Greater, zero, true), false)).Success?
      && Parse(js, Show(js, Comparison(Greater, zero, true), false)).value == Comparison(Greater, zero, false)
  {
    SmallIsLawful();
    var js, text := Small(), [GREATER] + MINUS_ZERO;
    ReadsComparison(js, MINUS_ZERO);
    RoundTrip(js, text);
  }

  /** A quoted letter of two units prints without quotes, which does not parse. */
  lemma PairLost()
    ensures var js, text := Small(), [QUOTE] + PAIR + [QUOTE];
      && Parse(js, text) == Success(|text|, String(PAIR))
      && !Parse(js, Show(js, String(PAIR), false)).Success?
  {
    SmallIsLawful();
    var js, text := Small(), [QUOTE] + PAIR + [QUOTE];
    assert text == [QUOTE, 0xD801, 0xDC00, QUOTE];
    PairIsRead(text);
    hide QuotedRest, QuotedString;
    OtherStarts(js, text, 0);
    assert PropertyName(js, text, 0) == Success(4, PAIR);
    assert Alternatives(js, text, 0) == Success(4, String(PAIR));
    WholeTerm(js, text, String(PAIR));
    PairDoesNotPrint();
    RoundTrip(js, text);
  }

  lemma PairIsRead(text: Text)
    requires text == [QUOTE, 0xD801, 0xDC00, QUOTE]
    ensures QuotedString(text, 0) == Success(4, PAIR)
  {
    assert QuotedRest(text, 3) == (4, []);
    var low: Text := [0xDC00];
    assert low + [] == low && [0xD801] + low == PAIR;
    assert QuotedRest(text, 2) == (4, low);
    assert QuotedRest(text, 1) == (4, PAIR);
  }

  lemma PairDoesNotPrint()
    ensures !PrintsBack(Small(), PAIR)
  {
    assert PAIR[2..] == [];
    assert !Raw(Small(), PAIR[0]);
  }
}
