/**
 * Which texts are filters, and of what: every filter without regular expressions, written out unit by unit, is
 * read as that filter.
 */
module MatcherGrammar {
  import opened MatcherSyntax
  import opened MatcherParser
  import opened MatcherRoundTrip

  // ----- names ------------------------------------------------------------------------------------------

  /** Digits, `_`, `-`, `.`, `$`, and letters that have two cases. */
  predicate Letter(js: Js, u: Unit) {
    0x30 <= u <= 0x39 || u == 0x5F || u == 0x2D || u == 0x2E || u == 0x24 || js.cased(u)
  }

  predicate Plain(js: Js, s: Text) { forall i | 0 <= i < |s| :: Letter(js, s[i]) }

  /** Neither a letter nor half of a character: with such a unit in it, a string must be quoted. */
  predicate Odd(js: Js, s: Text) { exists i :: 0 <= i < |s| && !Letter(js, s[i]) && !(0xD800 <= s[i] < 0xE000) }

  predicate Clear(js: Js, s: Text) { js.numeric(s) || Plain(js, s) || Odd(js, s) }

  // ----- filters, written out ------------------------------------------------------------------------------

  function Escaped(s: Text): Text {
    if s == [] then []
    else (if s[0] == 0x5C || s[0] == 0x22 then [0x5C, s[0]] else [s[0]]) + Escaped(s[1..])
  }

  /** A string as it stands if it is plain and no number, else in quotes. */
  function Name(js: Js, s: Text): Text {
    if Plain(js, s) && !js.numeric(s) then s else [0x22] + (if js.numeric(s) then s else Escaped(s)) + [0x22]
  }

  function Sign(op: Operator): Text {
    match op
    case Less => [0x3C]
    case LessOrEqual => [0x3C, 0x3D]
    case Greater => [0x3E]
    case GreaterOrEqual => [0x3E, 0x3D]
  }

  /** `(a b)`, `|(a b)`, `!a`, `>1`, `name:a`, `name?`, `name`, `12` and `a*b`. */
  function Written(js: Js, t: Node): Text
    decreases t
  {
    match t
    case Null => []
    case And(children) => [0x28] + WrittenAll(js, children) + [0x29]
    case Or(children) => [0x7C, 0x28] + WrittenAll(js, children) + [0x29]
    case Not(child) => [0x21] + Written(js, child)
    case Comparison(op, number, _) => Sign(op) + number
    case Property(name, child) => Name(js, name) + [0x3A] + Written(js, child)
    case TruthyProperty(name) => Name(js, name) + [0x3F]
    case String(value) => Name(js, value)
    case NumberOrString(value) => value
    case GlobPattern(value) => value
    case RegExp(_, _) => []
  }

  /** With a space between. */
  function WrittenAll(js: Js, ts: seq<Node>): Text
    decreases ts
  {
    if ts == [] then []
    else if |ts| == 1 then Written(js, ts[0])
    else Written(js, ts[0]) + [0x20] + WrittenAll(js, ts[1..])
  }

  /** A filter that can be written so. */
  predicate Ordinary(js: Js, t: Node)
    decreases t
  {
    match t
    case Null => false
    case And(children) => |children| >= 2 && AllOrdinary(js, children)
    case Or(children) => |children| >= 2 && AllOrdinary(js, children)
    case Not(child) => Ordinary(js, child)
    case Comparison(_, number, negativeZero) =>
      number != [] && Plain(js, number) && js.numeric(number) && js.canonical(number) == number
      && !js.negativeZero(number) && !negativeZero
    case Property(name, child) => Clear(js, name) && Ordinary(js, child)
    case TruthyProperty(name) => Clear(js, name)
    case String(value) => Clear(js, value)
    case NumberOrString(value) => value != [] && Plain(js, value) && js.numeric(value)
    case GlobPattern(value) => 0x2A in value && forall i | 0 <= i < |value| :: value[i] == 0x2A || Letter(js, value[i])
    case RegExp(_, _) => false
  }

  predicate AllOrdinary(js: Js, ts: seq<Node>)
    decreases ts
  {
    ts == [] || (Ordinary(js, ts[0]) && AllOrdinary(js, ts[1..]))
  }

  // ----- they are what the printer prints ------------------------------------------------------------------

  lemma LetterIsRaw(js: Js, u: Unit)
    ensures Letter(js, u) == Raw(js, u)
  {
  }

  lemma PlainIsRaw(js: Js, s: Text)
    ensures Plain(js, s) <==> AllRaw(js, s)
  {
    forall i | 0 <= i < |s| ensures Letter(js, s[i]) == Raw(js, s[i]) {
      LetterIsRaw(js, s[i]);
    }
  }

  lemma {:induction false} EscapedIs(s: Text)
    ensures Escaped(s) == Escape(s)
  {
    if s != [] {
      EscapedIs(s[1..]);
    }
  }

  lemma {:induction false} PlainIsRawString(js: Js, s: Text)
    requires Lawful(js) && AllRaw(js, s)
    ensures IsRawString(js, s)
  {
    if s != [] {
      RawIsPlain(js, s[0]);
      assert Raw(js, s[0]);
      PlainIsRawString(js, s[1..]);
    }
  }

  lemma {:induction false} OddIsNoRawString(js: Js, s: Text)
    requires Lawful(js) && Odd(js, s)
    ensures !IsRawString(js, s)
  {
    var i :| 0 <= i < |s| && !Letter(js, s[i]) && !(0xD800 <= s[i] < 0xE000);
    LetterIsRaw(js, s[i]);
    if i > 0 && !(|s| >= 2 && HighSurrogate(s[0]) && LowSurrogate(s[1])) {
      assert s[1..][i - 1] == s[i];
      OddIsNoRawString(js, s[1..]);
    } else if i > 1 {
      assert s[2..][i - 2] == s[i];
      OddIsNoRawString(js, s[2..]);
    }
  }

  /** A string is printed unquoted, unless numeric, if it is empty or a letter or a cased pair and such a string. */
  lemma BareStep(js: Js, u: Unit, s: Text)
    ensures IsRawString(js, [])
    ensures IsRawString(js, [u] + s) <==>
      if 0xD800 <= u <= 0xDBFF && s != [] && 0xDC00 <= s[0] <= 0xDFFF
      then js.casedPair(u, s[0]) && IsRawString(js, s[1..])
      else Letter(js, u) && IsRawString(js, s)
  {
    LetterIsRaw(js, u);
    assert ([u] + s)[1..] == s;
    if s != [] {
      assert ([u] + s)[2..] == s[1..];
    }
  }

  /** Unquoted it comes back if and only if it has no pair: no unit from 0xD800 to 0xDFFF. */
  lemma {:induction false} BareComesBack(js: Js, s: Text)
    requires Lawful(js) && IsRawString(js, s)
    ensures AllRaw(js, s) <==> forall i | 0 <= i < |s| :: !(0xD800 <= s[i] <= 0xDFFF)
  {
    if s != [] {
      assert s == [s[0]] + s[1..];
      BareStep(js, s[0], s[1..]);
      LetterIsRaw(js, s[0]);
      if !(0xD800 <= s[0] <= 0xDFFF) {
        BareComesBack(js, s[1..]);
      } else {
        assert !Raw(js, s[0]);
      }
    }
  }

  lemma NameIs(js: Js, s: Text)
    requires Lawful(js) && Clear(js, s)
    ensures Name(js, s) == Format(js, s) && PrintsBack(js, s)
  {
    PlainIsRaw(js, s);
    EscapedIs(s);
    if Plain(js, s) {
      PlainIsRawString(js, s);
    } else if !js.numeric(s) {
      OddIsNoRawString(js, s);
    }
  }

  lemma {:induction false} WrittenIs(js: Js, t: Node)
    requires Lawful(js) && Ordinary(js, t)
    ensures Written(js, t) == Show(js, t, true) && Parsed(js, t) && Printable(js, t) && RegExpFree(t)
    decreases t
  {
    match t
    case And(children) => WrittenAllIs(js, children);
    case Or(children) => WrittenAllIs(js, children);
    case Not(child) => WrittenIs(js, child);
    case Comparison(op, number, _) =>
      PlainIsRaw(js, number);
      assert Raw(js, number[0]);
    case Property(name, child) =>
      NameIs(js, name);
      WrittenIs(js, child);
    case TruthyProperty(name) => NameIs(js, name);
    case String(value) => NameIs(js, value);
    case NumberOrString(value) => PlainIsRaw(js, value);
    case GlobPattern(value) =>
      forall i | 0 <= i < |value| ensures GlobUnit(js, value[i]) {
        LetterIsRaw(js, value[i]);
      }
    case _ =>
  }

  lemma {:induction false} WrittenAllIs(js: Js, ts: seq<Node>)
    requires Lawful(js) && AllOrdinary(js, ts)
    ensures WrittenAll(js, ts) == ShowTerms(js, ts)
    ensures AllParsed(js, ts) && AllPrintable(js, ts) && AllRegExpFree(ts)
    decreases ts
  {
    if ts != [] {
      WrittenIs(js, ts[0]);
      WrittenAllIs(js, ts[1..]);
    }
  }

  // ----- they are read ----------------------------------------------------------------------------------------

  /** Filters one after the other are read as their conjunction, and a single one as itself. */
  lemma WrittenParses(js: Js, ts: seq<Node>)
    requires Lawful(js) && ts != [] && AllOrdinary(js, ts)
    ensures Parse(js, WrittenAll(js, ts)) == Success(|WrittenAll(js, ts)|, if |ts| == 1 then ts[0] else And(ts))
  {
    WrittenAllIs(js, ts);
    ListRoundTrip(js, ts);
  }

  /** Names in particular: `foo`, `foo?` and `foo:bar`. */
  lemma NamesParse(js: Js, s: Text, v: Text)
    requires Lawful(js) && s != [] && v != [] && Plain(js, s) && Plain(js, v) && !js.numeric(s) && !js.numeric(v)
    ensures Parse(js, s) == Success(|s|, String(s))
    ensures Parse(js, s + [0x3F]) == Success(|s| + 1, TruthyProperty(s))
    ensures Parse(js, s + [0x3A] + v) == Success(|s| + 1 + |v|, Property(s, String(v)))
  {
    OneParses(js, String(s));
    OneParses(js, TruthyProperty(s));
    OneParses(js, Property(s, String(v)));
  }

  lemma OneParses(js: Js, t: Node)
    requires Lawful(js) && Ordinary(js, t)
    ensures Parse(js, Written(js, t)) == Success(|Written(js, t)|, t)
  {
    assert [t][1..] == [];
    WrittenParses(js, [t]);
  }

  /** A text is read as the string that it is if and only if it is a plain name. */
  lemma OnlyPlainNames(js: Js, s: Text)
    requires Lawful(js) && s != []
    ensures Parse(js, s).Success? && Parse(js, s).value == String(s) <==> Plain(js, s) && !js.numeric(s)
  {
    if Plain(js, s) && !js.numeric(s) {
      OneParses(js, String(s));
    }
    if Parse(js, s).Success? && Parse(js, s).value == String(s) {
      var start := WsEnd(js, s, 0);
      OneTermOf(js, s, start);
      StringTaken(js, s, start);
      assert s[0..|s|] == s;
    }
  }

  /** Terms that make up a string are one term. */
  lemma OneTermOf(js: Js, input: Text, pos: nat)
    requires pos <= |input| && Repeat(js, input, pos).Success? && |Repeat(js, input, pos).value| == 1
    ensures var r, term := Repeat(js, input, pos), Alternatives(js, input, pos);
      term.Success? && term.pos <= r.pos <= |input| && r.value == [term.value]
  {
  }

  /** Where a term is a string, its text is longer than the string, or it is the string, plain and no number. */
  lemma {:induction false} StringTaken(js: Js, input: Text, pos: nat)
    requires pos <= |input|
    ensures var r := Alternatives(js, input, pos);
      r.Success? && r.value.String? && r.pos <= |input| ==>
        || |r.value.value| < r.pos - pos
        || (r.value.value == input[pos..r.pos] && Plain(js, r.value.value) && !js.numeric(r.value.value))
    decreases |input| - pos, 1
  {
    hide Plain;
    var group, either := Group(js, input, pos), OrGroup(js, input, pos);
    if group.Success? {
      GroupTaken(js, input, pos);
    } else if either.Success? {
      GroupTaken(js, input, WsEnd(js, input, pos + 1));
    } else {
      ValueTaken(js, input, pos);
    }
  }

  lemma {:induction false} GroupTaken(js: Js, input: Text, pos: nat)
    requires pos <= |input|
    ensures var r := Group(js, input, pos);
      r.Success? && |r.value| == 1 && r.value[0].String? ==> |r.value[0].value| < r.pos - pos
    decreases |input| - pos, 0
  {
    var r := Group(js, input, pos);
    if r.Success? && |r.value| == 1 && r.value[0].String? {
      var start := WsEnd(js, input, pos + 1);
      OneTermOf(js, input, start);
      StringTaken(js, input, start);
    }
  }

  lemma ValueTaken(js: Js, input: Text, pos: nat)
    requires pos <= |input|
    ensures var r := Value(js, input, pos);
      r.Success? && r.value.String? && r.pos <= |input| ==>
        || |r.value.value| < r.pos - pos
        || (r.value.value == input[pos..r.pos] && Plain(js, r.value.value) && !js.numeric(r.value.value))
  {
    if QuotedString(input, pos).Success? {
      QuotedTaken(input, pos + 1);
    } else {
      var glob := Glob(js, input, pos);
      if glob.Success? && STAR !in glob.value {
        forall i | 0 <= i < |glob.value| ensures Letter(js, glob.value[i]) {
          assert glob.value[i] == input[pos + i] && glob.value[i] in glob.value;
        }
      }
    }
  }

  lemma {:induction false} QuotedTaken(input: Text, pos: nat)
    requires pos <= |input| + 1
    ensures var r := QuotedRest(input, pos); |r.1| <= r.0 - pos
    decreases |input| + 1 - pos
  {
    if pos < |input| && input[pos] != QUOTE {
      QuotedTaken(input, if input[pos] == BACKSLASH then pos + 2 else pos + 1);
    }
  }

  // ----- space ----------------------------------------------------------------------------------------------------

  /** Nothing but space from `p` to `q`, and no more space at `q`. */
  predicate Gap(js: Js, input: Text, p: nat, q: nat) {
    && p <= q <= |input| && (forall k | p <= k < q :: js.space(input[k])) && (q < |input| ==> !js.space(input[q]))
  }

  lemma {:induction false} GapSkipped(js: Js, input: Text, p: nat, q: nat)
    requires Gap(js, input, p, q)
    ensures WsEnd(js, input, p) == q
    decreases q - p
  {
    if p < q {
      assert js.space(input[p]);
      GapSkipped(js, input, p + 1, q);
    }
  }

  /** A plain name from `p` to `e`, with `q` after the space behind it. */
  ghost predicate NameAt(js: Js, input: Text, p: nat, e: nat, q: nat) {
    && p < e <= |input| && Plain(js, input[p..e]) && !js.numeric(input[p..e]) && Gap(js, input, e, q)
    && (e < |input| ==> !Letter(js, input[e]) && input[e] != 0x2A)
  }

  lemma NameRead(js: Js, input: Text, p: nat, e: nat, q: nat)
    requires Lawful(js) && NameAt(js, input, p, e, q)
    ensures PropertyName(js, input, p) == Success(e, input[p..e])
    ensures Value(js, input, p) == Success(e, String(input[p..e]))
    ensures WsEnd(js, input, e) == q && Raw(js, input[p])
    ensures Group(js, input, p) == Failure && OrGroup(js, input, p) == Failure
    ensures Negation(js, input, p) == Failure && Comparisons(js, input, p) == Failure
  {
    var s := input[p..e];
    PlainIsRaw(js, s);
    NameIs(js, s);
    assert input[p] == s[0];
    LetterIsRaw(js, s[0]);
    if e < |input| {
      LetterIsRaw(js, input[e]);
    }
    GapSkipped(js, input, e, q);
    NameParses(js, s, input, p);
    NameStarts(js, input, p);
  }

  /** `name `, not followed by a colon or a question mark: a string. */
  lemma SpacedName(js: Js, input: Text, p: nat, e: nat, q: nat)
    requires Lawful(js) && NameAt(js, input, p, e, q)
    requires q < |input| ==> input[q] != 0x3A && (q > e || input[q] != 0x3F)
    ensures Term(js, input, p) == Success(q, String(input[p..e]))
  {
    NameRead(js, input, p, e, q);
    hide Group, OrGroup, Negation, Comparisons, PropertyName, Value;
    assert e < |input| && q > e ==> js.space(input[e]);
    assert PropertyTerm(js, input, p) == Failure && Truthy(js, input, p) == Failure;
    assert Alternatives(js, input, p) == Success(e, String(input[p..e]));
  }

  /** `name : term`: a property. */
  lemma SpacedProperty(js: Js, input: Text, p: nat, e: nat, colon: nat, q: nat)
    requires Lawful(js) && NameAt(js, input, p, e, colon) && colon < |input| && input[colon] == 0x3A
    requires Gap(js, input, colon + 1, q) && Term(js, input, q).Success?
    ensures var child := Term(js, input, q);
      Term(js, input, p) == Success(child.pos, Property(input[p..e], child.value))
  {
    hide Gap, Group, OrGroup, Negation, Comparisons, PropertyName, Value;
    NameRead(js, input, p, e, colon);
    GapSkipped(js, input, colon + 1, q);
    var child := Term(js, input, q);
    NoSpaceAfter(js, input, q);
    assert PropertyTerm(js, input, p) == Success(child.pos, Property(input[p..e], child.value));
    assert Alternatives(js, input, p) == Success(child.pos, Property(input[p..e], child.value));
  }

  /** A term takes the space behind it. */
  lemma NoSpaceAfter(js: Js, input: Text, p: nat)
    ensures Term(js, input, p).Success? ==> WsEnd(js, input, Term(js, input, p).pos) == Term(js, input, p).pos
  {
  }

  /** `! term`: a negation. */
  lemma SpacedNot(js: Js, input: Text, p: nat, q: nat)
    requires Lawful(js) && p < |input| && input[p] == 0x21 && Gap(js, input, p + 1, q) && Term(js, input, q).Success?
    ensures var child := Term(js, input, q); Term(js, input, p) == Success(child.pos, Not(child.value))
  {
    GapSkipped(js, input, p + 1, q);
    NoSpaceAfter(js, input, q);
    OtherStarts(js, input, p);
    var child := Term(js, input, q);
    assert Negation(js, input, p) == Success(child.pos, Not(child.value));
    assert Alternatives(js, input, p) == Success(child.pos, Not(child.value));
  }

  /** `( terms ) `: their conjunction, or the only one. */
  lemma SpacedGroup(js: Js, input: Text, p: nat, q: nat, end: nat)
    requires Lawful(js) && p < |input| && input[p] == 0x28 && Gap(js, input, p + 1, q)
    requires var terms := Repeat(js, input, q);
      terms.Success? && terms.value != [] && terms.pos < |input| && input[terms.pos] == 0x29
      && Gap(js, input, terms.pos + 1, end)
    ensures var ts := Repeat(js, input, q).value;
      Term(js, input, p) == Success(end, if |ts| == 1 then ts[0] else And(ts))
  {
    hide Gap, Lawful, Repeat;
    GapSkipped(js, input, p + 1, q);
    var terms := Repeat(js, input, q);
    GapSkipped(js, input, terms.pos + 1, end);
    assert Group(js, input, p) == Success(terms.pos + 1, terms.value);
    assert Alternatives(js, input, p) == Success(terms.pos + 1, MakeAnd(terms.value));
  }

  /** `| ( terms ) `: their disjunction. */
  lemma SpacedOr(js: Js, input: Text, p: nat, open: nat, q: nat, end: nat)
    requires Lawful(js) && p < |input| && input[p] == 0x7C && Gap(js, input, p + 1, open)
    requires open < |input| && input[open] == 0x28 && Gap(js, input, open + 1, q)
    requires var terms := Repeat(js, input, q);
      terms.Success? && terms.value != [] && terms.pos < |input| && input[terms.pos] == 0x29
      && Gap(js, input, terms.pos + 1, end)
    ensures var ts := Repeat(js, input, q).value;
      Term(js, input, p) == Success(end, if |ts| == 1 then ts[0] else Or(ts))
  {
    hide Gap, Lawful, Repeat;
    GapSkipped(js, input, p + 1, open);
    GapSkipped(js, input, open + 1, q);
    var terms := Repeat(js, input, q);
    GapSkipped(js, input, terms.pos + 1, end);
    assert Group(js, input, open) == Success(terms.pos + 1, terms.value);
    hide Group;
    OtherStarts(js, input, p);
    assert OrGroup(js, input, p) == Success(terms.pos + 1, terms.value);
    assert Alternatives(js, input, p) == Success(terms.pos + 1, MakeOr(terms.value));
  }

  /** Space in front of the whole text, and none but space without terms. */
  lemma SpacedText(js: Js, input: Text, q: nat)
    requires Gap(js, input, 0, q)
    ensures var terms := Repeat(js, input, q);
      terms.Success? && terms.pos == |input|
      ==> Parse(js, input) == Success(|input|, if terms.value == [] then Null
                                               else if |terms.value| == 1 then terms.value[0] else And(terms.value))
  {
    GapSkipped(js, input, 0, q);
  }

  // ----- regular expressions ----------------------------------------------------------------------------------------

  lemma {:induction false} PatternRead(p: Text, input: Text, pos: nat, last: int)
    requires Here(input, pos, p + [0x2F]) && 0x2F !in p && 0x5C !in p
    ensures RegexRest(input, pos, false, last) == (pos + |p| + 1, p, 0x2F)
    decreases |p|
  {
    HereAt(input, pos, p + [0x2F], 0);
    if p != [] {
      assert p + [0x2F] == p[..1] + (p[1..] + [0x2F]);
      HereSplit(input, pos, p[..1], p[1..] + [0x2F]);
      PatternRead(p[1..], input, pos + 1, p[0]);
      assert [p[0]] + p[1..] == p;
    }
  }

  /** `/p/` and `/p/i`, for a pattern without slash and backslash. */
  lemma PatternParses(js: Js, p: Text)
    requires Lawful(js) && 0x2F !in p && 0x5C !in p && js.validPattern(p)
    ensures Parse(js, [0x2F] + p + [0x2F]) == Success(|p| + 2, RegExp(p, false))
    ensures Parse(js, [0x2F] + p + [0x2F, 0x69]) == Success(|p| + 3, RegExp(p, true))
  {
    RegexIs(js, p, [0x2F] + p + [0x2F]);
    RegexIs(js, p, [0x2F] + p + [0x2F, 0x69]);
  }

  lemma RegexIs(js: Js, p: Text, text: Text)
    requires Lawful(js) && 0x2F !in p && 0x5C !in p && js.validPattern(p)
    requires text == [0x2F] + p + [0x2F] || text == [0x2F] + p + [0x2F, 0x69]
    ensures Parse(js, text) == Success(|text|, RegExp(p, |text| == |p| + 3))
  {
    assert text[1..1 + |p + [0x2F]|] == p + [0x2F];
    PatternRead(p, text, 1, -1);
    OtherStarts(js, text, 0);
    assert !Raw(js, SLASH);
    var found := RegExp(p, |text| == |p| + 3);
    assert Regex(js, text, 0) == Success(|text|, found);
    assert PropertyName(js, text, 0) == Failure && QuotedString(text, 0) == Failure;
    assert Value(js, text, 0) == Success(|text|, found);
    assert Alternatives(js, text, 0) == Success(|text|, found);
    assert WsEnd(js, text, 0) == 0 && WsEnd(js, text, |text|) == |text|;
    hide Alternatives;
    assert Term(js, text, 0) == Success(|text|, found);
    NoTerm(js, text, |text|);
    assert Repeat(js, text, |text|) == Success(|text|, []);
    assert [found] + [] == [found];
    assert Repeat(js, text, 0) == Success(|text|, [found]);
  }

  /** A regular expression comes back if its source has no slash or backslash; what comes back has this source. */
  lemma PatternComesBack(js: Js, pattern: Text, ignoreCase: bool)
    requires Lawful(js) && 0x2F !in js.source(pattern) && 0x5C !in js.source(pattern)
    requires js.validPattern(js.source(pattern))
    ensures var text := Show(js, RegExp(pattern, ignoreCase), false);
      Parse(js, text) == Success(|text|, RegExp(js.source(pattern), ignoreCase))
  {
    var p, text := js.source(pattern), Show(js, RegExp(pattern, ignoreCase), false);
    assert text == [0x2F] + p + if ignoreCase then [0x2F, 0x69] else [0x2F];
    PatternParses(js, p);
  }
}
