/**
 * Printing a parsed filter and parsing it again gives the same filter, exactly when two kinds of
 * leaves are absent: numbers whose text is not raw, and strings that print raw although they
 * contain a character made of two surrogates.
 */
module MatcherRoundTrip {
  import opened MatcherSyntax
  import opened MatcherParser

  // ----- the trees ------------------------------------------------------------------------------

  /** What a term of the grammar can be, but for negative zeros. */
  predicate Parsed(js: Js, t: Node)
    decreases t
  {
    match t
    case Null => false
    case And(children) => |children| >= 2 && AllParsed(js, children)
    case Or(children) => |children| >= 2 && AllParsed(js, children)
    case Not(child) => Parsed(js, child)
    case Comparison(_, number, negativeZero) =>
      js.numeric(number) && LawfulNumber(js, number) && !js.negativeZero(number) && !negativeZero
    case Property(_, child) => Parsed(js, child)
    case TruthyProperty(_) => true
    case String(_) => true
    case NumberOrString(value) => value != [] && AllGlob(js, value) && js.numeric(value)
    case GlobPattern(value) => AllGlob(js, value) && STAR in value && !js.numeric(value)
    case RegExp(_, _) => true
  }

  predicate AllParsed(js: Js, ts: seq<Node>)
    decreases ts
  {
    ts == [] || (Parsed(js, ts[0]) && AllParsed(js, ts[1..]))
  }

  predicate AllGlob(js: Js, s: Text) {
    forall i | 0 <= i < |s| :: GlobUnit(js, s[i])
  }

  predicate RegExpFree(t: Node)
    decreases t
  {
    match t
    case And(children) => AllRegExpFree(children)
    case Or(children) => AllRegExpFree(children)
    case Not(child) => RegExpFree(child)
    case Property(_, child) => RegExpFree(child)
    case RegExp(_, _) => false
    case _ => true
  }

  predicate AllRegExpFree(ts: seq<Node>)
    decreases ts
  {
    ts == [] || (RegExpFree(ts[0]) && AllRegExpFree(ts[1..]))
  }

  /** The string is quoted, or raw unit by unit. */
  predicate PrintsBack(js: Js, s: Text) {
    js.numeric(s) || !IsRawString(js, s) || AllRaw(js, s)
  }

  /** Every number is raw and every string prints back. */
  predicate Printable(js: Js, t: Node)
    decreases t
  {
    match t
    case And(children) => AllPrintable(js, children)
    case Or(children) => AllPrintable(js, children)
    case Not(child) => Printable(js, child)
    case Comparison(_, number, _) => AllRaw(js, number)
    case Property(name, child) => PrintsBack(js, name) && Printable(js, child)
    case TruthyProperty(name) => PrintsBack(js, name)
    case String(value) => PrintsBack(js, value)
    case _ => true
  }

  predicate AllPrintable(js: Js, ts: seq<Node>)
    decreases ts
  {
    ts == [] || (Printable(js, ts[0]) && AllPrintable(js, ts[1..]))
  }

  // ----- negative zeros ------------------------------------------------------------------------------

  /** The same filter with 0 for -0: both print and compare alike. */
  function Positive(t: Node): Node
    decreases t
  {
    match t
    case And(children) => And(PositiveAll(children))
    case Or(children) => Or(PositiveAll(children))
    case Not(child) => Not(Positive(child))
    case Comparison(op, number, _) => Comparison(op, number, false)
    case Property(name, child) => Property(name, Positive(child))
    case _ => t
  }

  function PositiveAll(ts: seq<Node>): (r: seq<Node>)
    ensures |r| == |ts|
    decreases ts
  {
    if ts == [] then [] else [Positive(ts[0])] + PositiveAll(ts[1..])
  }

  lemma {:induction false} PositiveSame(js: Js, t: Node, nested: bool)
    ensures Show(js, Positive(t), nested) == Show(js, t, nested)
    ensures RegExpFree(Positive(t)) == RegExpFree(t) && Printable(js, Positive(t)) == Printable(js, t)
    decreases t
  {
    match t
    case And(children) => PositiveSameAll(js, children);
    case Or(children) => PositiveSameAll(js, children);
    case Not(child) => PositiveSame(js, child, true);
    case Property(name, child) => PositiveSame(js, child, true);
    case _ =>
  }

  lemma {:induction false} PositiveSameAll(js: Js, ts: seq<Node>)
    ensures ShowTerms(js, PositiveAll(ts)) == ShowTerms(js, ts)
    ensures AllRegExpFree(PositiveAll(ts)) == AllRegExpFree(ts)
    ensures AllPrintable(js, PositiveAll(ts)) == AllPrintable(js, ts)
    decreases ts
  {
    if ts != [] {
      PositiveSame(js, ts[0], true);
      PositiveSameAll(js, ts[1..]);
      var ps := PositiveAll(ts);
      assert ps[0] == Positive(ts[0]) && ps[1..] == PositiveAll(ts[1..]);
    }
  }

  // ----- the parser gives such trees --------------------------------------------------------------

  lemma MakeGlobIsParsed(js: Js, s: Text)
    requires Lawful(js) && s != [] && AllGlob(js, s)
    ensures Parsed(js, MakeGlob(js, s)) && Positive(MakeGlob(js, s)) == MakeGlob(js, s)
  {
  }

  lemma MadeIsParsed(js: Js, ts: seq<Node>)
    requires AllParsed(js, PositiveAll(ts)) && ts != []
    ensures Parsed(js, Positive(MakeAnd(ts))) && Parsed(js, Positive(MakeOr(ts)))
  {
    assert PositiveAll(ts)[0] == Positive(ts[0]);
  }

  ghost predicate ParsedResult(js: Js, r: Result<Node>) { r.Success? ==> Parsed(js, Positive(r.value)) }

  ghost predicate ParsedList(js: Js, r: Result<seq<Node>>) { r.Success? ==> AllParsed(js, PositiveAll(r.value)) }

  /** A bound for the recursion over positions. */
  function Left(input: Text, pos: nat): nat { if pos <= |input| then |input| - pos else 0 }

  lemma {:induction false} GroupIsParsed(js: Js, input: Text, pos: nat)
    requires Lawful(js)
    ensures ParsedList(js, Group(js, input, pos))
    decreases Left(input, pos), 0
  {
    if Starts(input, pos, LPAREN) {
      RepeatIsParsed(js, input, WsEnd(js, input, pos + 1));
    }
  }

  lemma {:induction false} OrGroupIsParsed(js: Js, input: Text, pos: nat)
    requires Lawful(js)
    ensures ParsedList(js, OrGroup(js, input, pos))
    decreases Left(input, pos), 1
  {
    if Starts(input, pos, PIPE) {
      GroupIsParsed(js, input, WsEnd(js, input, pos + 1));
    }
  }

  lemma {:induction false} NegationIsParsed(js: Js, input: Text, pos: nat)
    requires Lawful(js)
    ensures ParsedResult(js, Negation(js, input, pos))
    decreases Left(input, pos), 1
  {
    if Starts(input, pos, BANG) {
      TermIsParsed(js, input, WsEnd(js, input, pos + 1));
    }
  }

  lemma {:induction false} PropertyIsParsed(js: Js, input: Text, pos: nat)
    requires Lawful(js)
    ensures ParsedResult(js, PropertyTerm(js, input, pos))
    decreases Left(input, pos), 1
  {
    var name := PropertyName(js, input, pos);
    if name.Success? && name.pos <= |input| {
      var colon := WsEnd(js, input, name.pos);
      if Starts(input, colon, COLON) {
        TermIsParsed(js, input, WsEnd(js, input, colon + 1));
      }
    }
  }

  lemma ComparisonIsParsed(js: Js, input: Text, pos: nat)
    requires Lawful(js)
    ensures ParsedResult(js, Comparisons(js, input, pos))
  {
    hide RawString, OperatorAt, RawLength;
    var r := Comparisons(js, input, pos);
    if r.Success? {
      assert LawfulNumber(js, r.value.number);
    }
  }

  lemma LeafIsParsed(js: Js, input: Text, pos: nat)
    requires Lawful(js)
    ensures ParsedResult(js, Comparisons(js, input, pos))
    ensures ParsedResult(js, Truthy(js, input, pos))
    ensures ParsedResult(js, Value(js, input, pos))
  {
    ComparisonIsParsed(js, input, pos);
    hide Comparisons, QuotedString, GlobEnd, RegexRest;
    var glob := Glob(js, input, pos);
    if glob.Success? {
      assert AllGlob(js, glob.value);
      MakeGlobIsParsed(js, glob.value);
    }
  }

  lemma {:induction false} TermIsParsed(js: Js, input: Text, pos: nat)
    requires Lawful(js)
    ensures ParsedResult(js, Term(js, input, pos))
    decreases Left(input, pos), 2
  {
    GroupIsParsed(js, input, pos);
    OrGroupIsParsed(js, input, pos);
    NegationIsParsed(js, input, pos);
    PropertyIsParsed(js, input, pos);
    LeafIsParsed(js, input, pos);
    var group, either := Group(js, input, pos), OrGroup(js, input, pos);
    if group.Success? {
      MadeIsParsed(js, group.value);
    }
    if either.Success? {
      MadeIsParsed(js, either.value);
    }
    hide Group, OrGroup, Negation, PropertyTerm, Comparisons, Truthy, Value, Lawful, Parsed, AllParsed, MakeAnd, MakeOr;
    assert ParsedResult(js, Alternatives(js, input, pos));
  }

  lemma {:induction false} RepeatIsParsed(js: Js, input: Text, pos: nat)
    requires Lawful(js) && pos <= |input|
    ensures ParsedList(js, Repeat(js, input, pos))
    decreases |input| - pos, 3
  {
    TermIsParsed(js, input, pos);
    hide Term, Lawful, Parsed;
    var term := Term(js, input, pos);
    if term.Success? {
      RepeatIsParsed(js, input, term.pos);
      var rest := Repeat(js, input, term.pos);
      if rest.Success? {
        NextParsed(js, term.value, rest.value);
      }
    }
  }

  lemma NextParsed(js: Js, t: Node, ts: seq<Node>)
    requires Parsed(js, Positive(t)) && AllParsed(js, PositiveAll(ts))
    ensures AllParsed(js, PositiveAll([t] + ts))
  {
    var all := [t] + ts;
    assert all[0] == t && all[1..] == ts;
    assert PositiveAll(all)[1..] == PositiveAll(ts);
  }

  lemma ParseIsParsed(js: Js, input: Text)
    requires Lawful(js)
    ensures var r := Parse(js, input); r.Success? ==> r.value == Null || Parsed(js, Positive(r.value))
  {
    RepeatIsParsed(js, input, WsEnd(js, input, 0));
    var terms := Repeat(js, input, WsEnd(js, input, 0));
    if terms.Success? && terms.value != [] {
      MadeIsParsed(js, terms.value);
    }
  }

  // ----- texts inside the input ---------------------------------------------------------------------

  predicate Here(input: Text, pos: nat, text: Text) {
    pos + |text| <= |input| && input[pos..pos + |text|] == text
  }

  lemma HereSplit(input: Text, pos: nat, a: Text, b: Text)
    requires Here(input, pos, a + b)
    ensures Here(input, pos, a) && Here(input, pos + |a|, b)
  {
    assert input[pos..pos + |a|] == input[pos..pos + |a + b|][..|a|] == a;
    assert input[pos + |a|..pos + |a| + |b|] == input[pos..pos + |a + b|][|a|..] == b;
  }

  lemma HereAt(input: Text, pos: nat, text: Text, k: nat)
    requires Here(input, pos, text) && k < |text|
    ensures input[pos + k] == text[k]
  {
    assert input[pos..pos + |text|][k] == text[k];
  }

  /** What comes after a printed term: the end, a closing parenthesis, or a space and another term. */
  predicate Follow(js: Js, input: Text, p: nat) {
    && p <= |input| && (p < |input| ==> input[p] == SPACE || input[p] == RPAREN)
    && var q := WsEnd(js, input, p); q < |input| ==> input[q] != COLON
  }

  /** No term starts here. */
  predicate NoStart(input: Text, p: nat) {
    p >= |input| || input[p] == RPAREN || input[p] == COLON || Surrogate(input[p])
  }

  lemma NoTerm(js: Js, input: Text, p: nat)
    requires Lawful(js) && NoStart(input, p)
    ensures Term(js, input, p) == Failure
  {
    if p < |input| {
      assert !Raw(js, input[p]) && !GlobUnit(js, input[p]);
    }
    assert PropertyName(js, input, p) == Failure;
    assert Value(js, input, p) == Failure;
    assert PropertyTerm(js, input, p)
      == Failure && Truthy(js, input, p) == Failure && Comparisons(js, input, p) == Failure;
    assert Group(js, input, p) == Failure && OrGroup(js, input, p) == Failure && Negation(js, input, p) == Failure;
    assert Alternatives(js, input, p) == Failure;
  }

  /** The parser has stopped in front of something that is neither the end nor a closing parenthesis. */
  predicate Stuck(js: Js, input: Text, p: nat) {
    p < |input| && (input[p] == COLON || Surrogate(input[p])) && !js.space(input[p])
  }

  ghost predicate Broken(js: Js, input: Text, r: Result<Node>) { r.Success? ==> Stuck(js, input, r.pos) }

  // ----- strings --------------------------------------------------------------------------------------

  lemma EscapePlain(s: Text)
    requires QUOTE !in s && BACKSLASH !in s
    ensures Escape(s) == s
  {
    if s != [] {
      EscapePlain(s[1..]);
    }
  }

  lemma {:induction false} QuotedRestParses(s: Text, input: Text, pos: nat)
    requires Here(input, pos, Escape(s) + [QUOTE])
    ensures QuotedRest(input, pos) == (pos + |Escape(s)| + 1, s)
  {
    HereAt(input, pos, Escape(s) + [QUOTE], 0);
    if s != [] {
      var first := if s[0] == BACKSLASH || s[0] == QUOTE then [BACKSLASH, s[0]] else [s[0]];
      assert Escape(s) + [QUOTE] == first + (Escape(s[1..]) + [QUOTE]);
      HereSplit(input, pos, first, Escape(s[1..]) + [QUOTE]);
      HereAt(input, pos, first, |first| - 1);
      QuotedRestParses(s[1..], input, pos + |first|);
      assert [s[0]] + s[1..] == s;
    }
  }

  lemma QuotedParses(s: Text, input: Text, pos: nat)
    requires Here(input, pos, [QUOTE] + Escape(s) + [QUOTE])
    ensures QuotedString(input, pos) == Success(pos + |Escape(s)| + 2, s)
  {
    assert [QUOTE] + Escape(s) + [QUOTE] == [QUOTE] + (Escape(s) + [QUOTE]);
    HereSplit(input, pos, [QUOTE], Escape(s) + [QUOTE]);
    HereAt(input, pos, [QUOTE], 0);
    QuotedRestParses(s, input, pos + 1);
  }

  predicate PrintsQuoted(js: Js, s: Text) { js.numeric(s) || !IsRawString(js, s) }

  lemma FormatQuoted(js: Js, s: Text)
    requires Lawful(js) && PrintsQuoted(js, s)
    ensures Format(js, s) == [QUOTE] + Escape(s) + [QUOTE]
  {
    if js.numeric(s) {
      EscapePlain(s);
    }
  }

  /** A run of raw units ends where it is followed by something that is neither raw nor a star. */
  lemma {:induction false} RawRun(js: Js, s: Text, input: Text, pos: nat)
    requires Here(input, pos, s) && AllRaw(js, s)
    requires pos + |s| < |input| ==> !GlobUnit(js, input[pos + |s|])
    ensures RawEnd(js, input, pos) == GlobEnd(js, input, pos) == pos + |s|
  {
    if s != [] {
      HereAt(input, pos, s, 0);
      HereSplit(input, pos, s[..1], s[1..]);
      assert s[..1] + s[1..] == s;
      RawRun(js, s[1..], input, pos + 1);
    }
  }

  lemma RawIsPlain(js: Js, u: Unit)
    requires Lawful(js) && Raw(js, u)
    ensures u !in SYNTAX && !Surrogate(u) && !js.space(u) && u != SPACE
  {
  }

  /** A string that prints back is read back as a name, and its form tells which alternative reads it. */
  lemma NameParses(js: Js, s: Text, input: Text, pos: nat)
    requires Lawful(js) && PrintsBack(js, s) && Here(input, pos, Format(js, s))
    requires var end := pos + |Format(js, s)|; end < |input| ==> !GlobUnit(js, input[end])
    ensures PropertyName(js, input, pos) == Success(pos + |Format(js, s)|, s)
    ensures if PrintsQuoted(js, s) then QuotedString(input, pos) == Success(pos + |Format(js, s)|, s)
            else QuotedString(input, pos) == Failure && Glob(js, input, pos) == Success(pos + |Format(js, s)|, s)
                 && !js.numeric(s) && STAR !in s && Raw(js, input[pos])
    ensures PrintsQuoted(js, s) ==> Starts(input, pos, QUOTE)
  {
    if PrintsQuoted(js, s) {
      FormatQuoted(js, s);
      QuotedParses(s, input, pos);
    } else {
      assert s != [];
      RawRun(js, s, input, pos);
      HereAt(input, pos, s, 0);
      RawIsPlain(js, s[0]);
    }
  }

  /** Which alternatives cannot apply, by the first unit. */
  lemma OtherStarts(js: Js, input: Text, pos: nat)
    ensures !Starts(input, pos, LPAREN) ==> Group(js, input, pos) == Failure
    ensures !Starts(input, pos, PIPE) ==> OrGroup(js, input, pos) == Failure
    ensures !Starts(input, pos, BANG) ==> Negation(js, input, pos) == Failure
    ensures !Starts(input, pos, LESS) && !Starts(input, pos, GREATER) ==> Comparisons(js, input, pos) == Failure
    ensures !Starts(input, pos, SLASH) ==> Regex(js, input, pos) == Failure
  {
  }

  /** The first four alternatives do not apply to a name. */
  lemma NameStarts(js: Js, input: Text, pos: nat)
    requires Lawful(js) && pos < |input| && (input[pos] == QUOTE || input[pos] == STAR || Raw(js, input[pos]))
    ensures Group(js, input, pos) == Failure && OrGroup(js, input, pos) == Failure
    ensures Negation(js, input, pos) == Failure && Comparisons(js, input, pos) == Failure
    ensures Regex(js, input, pos) == Failure
  {
    OtherStarts(js, input, pos);
  }

  // ----- strings that do not print back -----------------------------------------------------------------

  /** The first unit that is not raw belongs to a pair. */
  lemma {:induction false} RawButNotUnits(js: Js, s: Text)
    requires Lawful(js) && IsRawString(js, s) && !AllRaw(js, s)
    ensures RawLength(js, s) < |s| && Surrogate(s[RawLength(js, s)])
  {
    if s != [] && Raw(js, s[0]) {
      RawIsPlain(js, s[0]);
      assert !AllRaw(js, s[1..]);
      RawButNotUnits(js, s[1..]);
    }
  }

  /** Such a string is cut where its first pair starts, and the parser cannot go on from there. */
  lemma BadName(js: Js, s: Text, input: Text, pos: nat)
    requires Lawful(js) && !PrintsBack(js, s) && Here(input, pos, s)
    ensures Format(js, s) == s && Broken(js, input, Term(js, input, pos))
  {
    var k := RawLength(js, s);
    RawButNotUnits(js, s);
    HereAt(input, pos, s, k);
    assert s == s[..k] + s[k..];
    HereSplit(input, pos, s[..k], s[k..]);
    SurrogateEnds(js, s[k]);
    assert AllRaw(js, s[..k]) && (k > 0 ==> Raw(js, s[0]));
    assert Format(js, s) == s && !js.space(s[k]);
    hide Lawful, Raw, AllRaw, GlobUnit, Surrogate, PrintsBack, RawLength, Format;
    RawRun(js, s[..k], input, pos);
    if k == 0 {
      NoTerm(js, input, pos);
    } else {
      HereAt(input, pos, s, 0);
      CutName(js, input, pos, pos + k);
    }
  }

  lemma SurrogateEnds(js: Js, u: Unit)
    requires Lawful(js) && Surrogate(u)
    ensures !GlobUnit(js, u) && !js.space(u)
  {
  }

  /** A raw beginning that stops in front of a surrogate is read as a value, and nothing follows it. */
  lemma CutName(js: Js, input: Text, pos: nat, end: nat)
    requires Lawful(js) && pos < end < |input| && Raw(js, input[pos]) && Surrogate(input[end])
    requires RawEnd(js, input, pos) == GlobEnd(js, input, pos) == end
    ensures Broken(js, input, Term(js, input, pos))
  {
    NameStarts(js, input, pos);
    RawIsPlain(js, input[pos]);
    assert PropertyName(js, input, pos) == Success(end, input[pos..end]);
    assert !js.space(input[end]) && WsEnd(js, input, end) == end;
    assert PropertyTerm(js, input, pos) == Failure && Truthy(js, input, pos) == Failure;
    assert Value(js, input, pos) == Success(end, MakeGlob(js, input[pos..end]));
    assert Alternatives(js, input, pos) == Success(end, MakeGlob(js, input[pos..end]));
  }

  // ----- leaves -------------------------------------------------------------------------------------------

  ghost predicate Outcome(js: Js, t: Node, input: Text, pos: nat, end: nat)
    requires end <= |input|
  {
    if Printable(js, t) then Term(js, input, pos) == Success(WsEnd(js, input, end), t)
    else Broken(js, input, Term(js, input, pos))
  }

  lemma StringOutcome(js: Js, t: Node, input: Text, pos: nat)
    requires Lawful(js) && t.String? && Here(input, pos, Show(js, t, true))
    requires Follow(js, input, pos + |Show(js, t, true)|)
    ensures Outcome(js, t, input, pos, pos + |Show(js, t, true)|)
  {
    var s, end := t.value, pos + |Show(js, t, true)|;
    if PrintsBack(js, s) {
      NameParses(js, s, input, pos);
      NameStarts(js, input, pos);
      NoColon(js, input, pos, end, s);
      assert Value(js, input, pos) == Success(end, t);
      assert Alternatives(js, input, pos) == Success(end, t);
    } else {
      BadName(js, s, input, pos);
    }
  }

  /** A name followed by the end, a parenthesis or another term is no property. */
  lemma NoColon(js: Js, input: Text, pos: nat, end: nat, name: Text)
    requires Lawful(js) && PropertyName(js, input, pos) == Success(end, name) && Follow(js, input, end)
    ensures PropertyTerm(js, input, pos) == Failure && Truthy(js, input, pos) == Failure
  {
  }

  lemma GlobOutcome(js: Js, t: Node, input: Text, pos: nat)
    requires Lawful(js) && (t.GlobPattern? || t.NumberOrString?) && Parsed(js, t)
    requires Here(input, pos, t.value) && Follow(js, input, pos + |t.value|)
    ensures Term(js, input, pos) == Success(WsEnd(js, input, pos + |t.value|), t)
  {
    var s, end := t.value, pos + |t.value|;
    GlobRun(js, s, input, pos);
    HereAt(input, pos, s, 0);
    NameStarts(js, input, pos);
    assert Glob(js, input, pos) == Success(end, s);
    if t.NumberOrString? {
      assert AllRaw(js, s);
      RawRun(js, s, input, pos);
      RawIsPlain(js, s[0]);
      NoColon(js, input, pos, end, s);
    } else {
      StarInside(js, s, input, pos);
    }
    assert Value(js, input, pos) == Success(end, t);
    assert Alternatives(js, input, pos) == Success(end, t);
  }

  lemma {:induction false} GlobRun(js: Js, s: Text, input: Text, pos: nat)
    requires Here(input, pos, s) && AllGlob(js, s)
    requires pos + |s| < |input| ==> !GlobUnit(js, input[pos + |s|])
    ensures GlobEnd(js, input, pos) == pos + |s|
  {
    if s != [] {
      HereAt(input, pos, s, 0);
      HereSplit(input, pos, s[..1], s[1..]);
      assert s[..1] + s[1..] == s;
      GlobRun(js, s[1..], input, pos + 1);
    }
  }

  /** The raw beginning of a glob pattern stops at its first star, so the pattern is no property. */
  lemma StarInside(js: Js, s: Text, input: Text, pos: nat)
    requires Lawful(js) && Here(input, pos, s) && AllGlob(js, s) && STAR in s
    ensures PropertyTerm(js, input, pos) == Failure && Truthy(js, input, pos) == Failure
    ensures QuotedString(input, pos) == Failure
  {
    var e := RawEnd(js, input, pos);
    var k :| 0 <= k < |s| && s[k] == STAR;
    HereAt(input, pos, s, k);
    assert e <= pos + k;
    HereAt(input, pos, s, e - pos);
    assert input[e] == STAR && WsEnd(js, input, e) == e;
    HereAt(input, pos, s, 0);
  }

  lemma OperatorParses(op: Operator, number: Text, input: Text, pos: nat)
    requires Here(input, pos, OperatorText(op) + number) && number != [] && number[0] != EQUALS
    ensures OperatorAt(input, pos) == Success(pos + |OperatorText(op)|, op)
    ensures Starts(input, pos, LESS) || Starts(input, pos, GREATER)
  {
    var text := OperatorText(op) + number;
    HereAt(input, pos, text, 0);
    HereAt(input, pos, text, 1);
  }

  lemma ComparisonParses(js: Js, t: Node, input: Text, pos: nat)
    requires Lawful(js) && t.Comparison? && Parsed(js, t)
    requires Here(input, pos, Show(js, t, true)) && Follow(js, input, pos + |Show(js, t, true)|)
    ensures Starts(input, pos, LESS) || Starts(input, pos, GREATER)
    ensures Comparisons(js, input, pos)
      == if AllRaw(js, t.number) then Success(pos + |Show(js, t, true)|, t) else Thrown
  {
    hide Here, Follow, RawLength, AllRaw, RawString, OperatorAt;
    var number, start := t.number, pos + |OperatorText(t.operator)|;
    HereSplit(input, pos, OperatorText(t.operator), number);
    RawIsPlain(js, number[0]);
    OperatorParses(t.operator, number, input, pos);
    NumberParses(js, number, input, start);
    AllRawLength(js, number);
    assert number[..|number|] == number;
  }

  lemma ComparisonOutcome(js: Js, t: Node, input: Text, pos: nat)
    requires Lawful(js) && t.Comparison? && Parsed(js, t)
    requires Here(input, pos, Show(js, t, true)) && Follow(js, input, pos + |Show(js, t, true)|)
    ensures Outcome(js, t, input, pos, pos + |Show(js, t, true)|)
  {
    hide Lawful, Parsed, Raw, AllRaw, Follow, Group, OrGroup, Negation, Comparisons, Show;
    ComparisonParses(js, t, input, pos);
    OtherStarts(js, input, pos);
    assert Alternatives(js, input, pos) == Comparisons(js, input, pos);
  }

  lemma AllRawLength(js: Js, s: Text)
    ensures AllRaw(js, s) <==> RawLength(js, s) == |s|
  {
    assert s[..|s|] == s;
  }

  /** The parser reads the raw beginning of a number. */
  lemma NumberParses(js: Js, number: Text, input: Text, pos: nat)
    requires Lawful(js) && number != [] && Raw(js, number[0]) && Here(input, pos, number)
    requires Follow(js, input, pos + |number|)
    ensures var k := RawLength(js, number); RawString(js, input, pos) == Success(pos + k, number[..k])
  {
    hide Lawful, Raw, Follow, AllRaw, Here, RawLength;
    var k := RawLength(js, number);
    SomeRaw(js, number);
    NotRawAfter(js, input, pos + |number|);
    FrontHere(input, pos, number, k);
    RawUntil(js, number[..k], input, pos);
  }

  lemma SomeRaw(js: Js, s: Text)
    requires s != [] && Raw(js, s[0])
    ensures RawLength(js, s) > 0
  {
  }

  lemma FrontHere(input: Text, pos: nat, text: Text, k: nat)
    requires Here(input, pos, text) && k <= |text|
    ensures Here(input, pos, text[..k]) && pos + |text| <= |input|
    ensures input[pos..pos + k] == text[..k] && (k < |text| ==> input[pos + k] == text[k])
  {
    assert text == text[..k] + text[k..];
    HereSplit(input, pos, text[..k], text[k..]);
    if k < |text| {
      HereAt(input, pos, text, k);
    }
  }

  lemma NotRawAfter(js: Js, input: Text, p: nat)
    requires Lawful(js) && Follow(js, input, p)
    ensures p < |input| ==> !Raw(js, input[p])
  {
  }

  lemma {:induction false} RawUntil(js: Js, s: Text, input: Text, pos: nat)
    requires Here(input, pos, s) && AllRaw(js, s)
    requires pos + |s| < |input| ==> !Raw(js, input[pos + |s|])
    ensures RawEnd(js, input, pos) == pos + |s|
  {
    if s != [] {
      HereAt(input, pos, s, 0);
      HereSplit(input, pos, s[..1], s[1..]);
      assert s[..1] + s[1..] == s;
      RawUntil(js, s[1..], input, pos + 1);
    }
  }

  // ----- properties -----------------------------------------------------------------------------------------

  lemma FormatStart(js: Js, s: Text)
    requires Lawful(js)
    ensures Format(js, s) != []
    ensures var u := Format(js, s)[0]; !js.space(u) && u != COLON && u != RPAREN
  {
    if !PrintsQuoted(js, s) {
      assert s != [];
      assert Raw(js, s[0]) || Surrogate(s[0]);
    }
  }

  /** No printed term starts with a space, a colon or a closing parenthesis. */
  lemma FirstUnit(js: Js, t: Node)
    requires Lawful(js) && Parsed(js, t) && RegExpFree(t)
    ensures Show(js, t, true) != []
    ensures var u := Show(js, t, true)[0]; !js.space(u) && u != COLON && u != RPAREN
  {
    match t
    case Comparison(op, number, _) => assert OperatorText(op)[0] in {LESS, GREATER};
    case Property(name, _) => FormatStart(js, name);
    case TruthyProperty(name) => FormatStart(js, name);
    case String(value) => FormatStart(js, value);
    case NumberOrString(value) => assert GlobUnit(js, value[0]);
    case GlobPattern(value) => assert GlobUnit(js, value[0]);
    case _ =>
  }

  lemma TruthyOutcome(js: Js, t: Node, input: Text, pos: nat)
    requires Lawful(js) && t.TruthyProperty?
    requires Here(input, pos, Show(js, t, true)) && Follow(js, input, pos + |Show(js, t, true)|)
    ensures Outcome(js, t, input, pos, pos + |Show(js, t, true)|)
  {
    var name := t.name;
    var end := pos + |Format(js, name)|;
    HereSplit(input, pos, Format(js, name), [QUESTION]);
    HereAt(input, end, [QUESTION], 0);
    assert Lawful(js) ==> !GlobUnit(js, QUESTION) && !js.space(QUESTION);
    assert Show(js, t, true) == Format(js, name) + [QUESTION] && Printable(js, t) == PrintsBack(js, name);
    hide Lawful, Here, Format, Follow, PrintsBack, Printable, GlobUnit, Show, PrintsQuoted;
    if PrintsBack(js, name) {
      NameParses(js, name, input, pos);
      NameStarts(js, input, pos);
      QuestionParses(js, name, input, pos, end);
    } else {
      BadName(js, name, input, pos);
    }
  }

  lemma QuestionParses(js: Js, name: Text, input: Text, pos: nat, end: nat)
    requires PropertyName(js, input, pos) == Success(end, name) && end < |input| && input[end] == QUESTION
    requires !js.space(QUESTION)
    requires Group(js, input, pos) == Failure && OrGroup(js, input, pos) == Failure
    requires Negation(js, input, pos) == Failure && Comparisons(js, input, pos) == Failure
    ensures Term(js, input, pos) == Success(WsEnd(js, input, end + 1), TruthyProperty(name))
  {
    assert WsEnd(js, input, end) == end;
    hide PropertyName, Group, OrGroup, Negation, Comparisons;
    assert PropertyTerm(js, input, pos) == Failure;
    assert Alternatives(js, input, pos) == Success(end + 1, TruthyProperty(name));
  }

  lemma PropertyHere(js: Js, t: Node, input: Text, pos: nat)
    requires Lawful(js) && t.Property? && Parsed(js, t.child) && RegExpFree(t.child)
    requires Here(input, pos, Show(js, t, true))
    ensures var colon := pos + |Format(js, t.name)|;
      && Here(input, pos, Format(js, t.name)) && Starts(input, colon, COLON) && !GlobUnit(js, COLON)
      && Here(input, colon + 1, Show(js, t.child, true)) && WsEnd(js, input, colon + 1) == colon + 1
      && colon + 1 + |Show(js, t.child, true)| == pos + |Show(js, t, true)|
  {
    var name, shown := t.name, Show(js, t.child, true);
    var colon := pos + |Format(js, name)|;
    FirstUnit(js, t.child);
    hide Format, Parsed, RegExpFree;
    HereSplit(input, pos, Format(js, name) + [COLON], shown);
    HereSplit(input, pos, Format(js, name), [COLON]);
    HereAt(input, colon, [COLON], 0);
    HereAt(input, colon + 1, shown, 0);
  }

  /** A property whose child is known to parse, or to be broken, after the colon. */
  lemma PropertyOutcome(js: Js, t: Node, input: Text, pos: nat, end: nat)
    requires Lawful(js) && t.Property? && Parsed(js, t.child) && RegExpFree(t.child)
    requires Here(input, pos, Show(js, t, true)) && end == pos + |Show(js, t, true)|
    requires Outcome(js, t.child, input, pos + |Format(js, t.name)| + 1, end)
    ensures Outcome(js, t, input, pos, end)
  {
    var name, colon := t.name, pos + |Format(js, t.name)|;
    PropertyHere(js, t, input, pos);
    hide Show, Parsed, RegExpFree, Here, Term;
    if PrintsBack(js, name) {
      NameParses(js, name, input, pos);
      NameStarts(js, input, pos);
      NameValue(js, name, input, pos, colon);
      PropertyByParts(js, t, input, pos, colon, end);
    } else {
      BadName(js, name, input, pos);
    }
  }

  lemma NameValue(js: Js, s: Text, input: Text, pos: nat, end: nat)
    requires Regex(js, input, pos) == Failure
    requires QuotedString(input, pos) == Success(end, s)
      || (QuotedString(input, pos) == Failure && Glob(js, input, pos) == Success(end, s))
    ensures Value(js, input, pos).Success? && Value(js, input, pos).pos == end
  {
  }

  /** A property from what its parts give; when the child fails, the name alone is read as a value. */
  lemma PropertyByParts(js: Js, t: Node, input: Text, pos: nat, colon: nat, end: nat)
    requires Lawful(js) && t.Property? && end <= |input| && PrintsBack(js, t.name)
    requires Group(js, input, pos) == Failure && OrGroup(js, input, pos) == Failure
    requires Negation(js, input, pos) == Failure && Comparisons(js, input, pos) == Failure
    requires PropertyName(js, input, pos) == Success(colon, t.name) && Starts(input, colon, COLON)
    requires Value(js, input, pos).Success? && Value(js, input, pos).pos == colon
    requires WsEnd(js, input, colon + 1) == colon + 1
    requires Outcome(js, t.child, input, colon + 1, end)
    ensures Outcome(js, t, input, pos, end)
  {
    assert !js.space(COLON) && WsEnd(js, input, colon) == colon;
    hide Lawful, Value, PropertyName, Group, OrGroup, Negation, Comparisons, PrintsBack;
    var child := Term(js, input, colon + 1);
    assert Printable(js, t) == Printable(js, t.child) by {
      assert PrintsBack(js, t.name);
    }
    assert Truthy(js, input, pos) == Failure;
    if child.Success? {
      assert PropertyTerm(js, input, pos) == Success(child.pos, Property(t.name, child.value));
      assert Alternatives(js, input, pos) == Success(child.pos, Property(t.name, child.value));
      assert Term(js, input, pos) == Success(WsEnd(js, input, child.pos), Property(t.name, child.value));
      assert WsEnd(js, input, child.pos) == child.pos;
    } else if child.Failure? {
      assert PropertyTerm(js, input, pos) == Failure;
      assert Alternatives(js, input, pos) == Value(js, input, pos);
      assert Term(js, input, pos).pos == colon;
    } else {
      assert PropertyTerm(js, input, pos) == Thrown;
      assert Term(js, input, pos) == Thrown;
    }
  }

  // ----- negations and groups -----------------------------------------------------------------------------

  lemma NotHere(js: Js, t: Node, input: Text, pos: nat)
    requires Lawful(js) && t.Not? && Parsed(js, t.child) && RegExpFree(t.child) && Here(input, pos, Show(js, t, true))
    ensures Starts(input, pos, BANG) && Here(input, pos + 1, Show(js, t.child, true))
    ensures WsEnd(js, input, pos + 1) == pos + 1 && 1 + |Show(js, t.child, true)| == |Show(js, t, true)|
  {
    FirstUnit(js, t.child);
    hide Parsed, RegExpFree;
    HereSplit(input, pos, [BANG], Show(js, t.child, true));
    HereAt(input, pos, [BANG], 0);
    HereAt(input, pos + 1, Show(js, t.child, true), 0);
  }

  lemma NotOutcome(js: Js, t: Node, input: Text, pos: nat, end: nat)
    requires Lawful(js) && t.Not? && Parsed(js, t.child) && RegExpFree(t.child)
    requires Here(input, pos, Show(js, t, true)) && end == pos + |Show(js, t, true)|
    requires Outcome(js, t.child, input, pos + 1, end)
    ensures Outcome(js, t, input, pos, end)
  {
    NotHere(js, t, input, pos);
    OtherStarts(js, input, pos);
    assert !Raw(js, BANG) && !GlobUnit(js, BANG);
    assert PropertyName(js, input, pos) == Failure && Value(js, input, pos) == Failure;
    hide Lawful, Here, Show, Parsed, RegExpFree, Group, OrGroup, Comparisons, Value, PropertyName;
    var child := Term(js, input, pos + 1);
    assert PropertyTerm(js, input, pos) == Failure && Truthy(js, input, pos) == Failure;
    if child.Success? {
      assert Negation(js, input, pos) == Success(child.pos, Not(child.value));
      assert Alternatives(js, input, pos) == Success(child.pos, Not(child.value));
      assert Term(js, input, pos) == Success(WsEnd(js, input, child.pos), Not(child.value));
      assert WsEnd(js, input, child.pos) == child.pos;
    } else {
      assert Negation(js, input, pos) == child;
      assert Term(js, input, pos) == child;
    }
  }

  /** What a printed list of terms gives: all of them, or a stop before something unexpected. */
  ghost predicate ListOutcome(js: Js, ts: seq<Node>, input: Text, pos: nat, end: nat)
    requires pos <= |input|
  {
    var r := Repeat(js, input, pos);
    if AllPrintable(js, ts) then r == Success(end, ts)
    else r.Success? ==> r.pos < |input| && input[r.pos] != RPAREN
  }

  predicate ListEnd(input: Text, end: nat) { end == |input| || (end < |input| && input[end] == RPAREN) }

  lemma OneTerm(js: Js, t: Node, input: Text, pos: nat, end: nat)
    requires Lawful(js) && end <= |input| && pos < |input| && input[pos] != RPAREN
    requires ListEnd(input, end) && Outcome(js, t, input, pos, end)
    ensures ListOutcome(js, [t], input, pos, end)
  {
    assert WsEnd(js, input, end) == end;
    NoTerm(js, input, end);
    OnePrintable(js, t);
    var term := Term(js, input, pos);
    if term.Success? {
      NoTerm(js, input, term.pos);
      assert Repeat(js, input, term.pos) == Success(term.pos, []);
      assert [term.value] + [] == [term.value];
    }
  }

  lemma OnePrintable(js: Js, t: Node)
    ensures AllPrintable(js, [t]) == Printable(js, t) && AllParsed(js, [t]) == Parsed(js, t)
    ensures AllRegExpFree([t]) == RegExpFree(t)
  {
    assert [t][1..] == [];
  }

  lemma MoreTerms(js: Js, ts: seq<Node>, input: Text, pos: nat, mid: nat, end: nat)
    requires Lawful(js) && ts != [] && mid < |input| && pos < |input| && input[pos] != RPAREN
    requires Outcome(js, ts[0], input, pos, mid) && WsEnd(js, input, mid) == mid + 1
    requires ListOutcome(js, ts[1..], input, mid + 1, end)
    ensures ListOutcome(js, ts, input, pos, end)
  {
    var term := Term(js, input, pos);
    if term.Success? {
      if Printable(js, ts[0]) {
        assert term.pos == mid + 1;
        assert [ts[0]] + ts[1..] == ts;
      } else {
        NoTerm(js, input, term.pos);
        assert Repeat(js, input, term.pos) == Success(term.pos, []);
      }
    }
  }

  /** The position after a term and its space, where the next term starts. */
  lemma NextTerm(js: Js, ts: seq<Node>)
    requires Lawful(js) && |ts| >= 2 && Parsed(js, ts[1]) && RegExpFree(ts[1])
    ensures ShowTerms(js, ts) == Show(js, ts[0], true) + [SPACE] + ShowTerms(js, ts[1..])
    ensures var rest := ShowTerms(js, ts[1..]); rest != [] && js.space(SPACE) && !js.space(rest[0]) && rest[0] != COLON
  {
    FirstUnit(js, ts[1]);
    assert ShowTerms(js, ts[1..])[0] == Show(js, ts[1], true)[0];
  }

  lemma NextTermHere(js: Js, ts: seq<Node>, input: Text, pos: nat)
    requires Lawful(js) && |ts| >= 2 && Parsed(js, ts[1]) && RegExpFree(ts[1])
    requires Here(input, pos, ShowTerms(js, ts))
    ensures var mid := pos + |Show(js, ts[0], true)|;
      && Here(input, pos, Show(js, ts[0], true)) && mid < |input| && input[mid] == SPACE
      && Here(input, mid + 1, ShowTerms(js, ts[1..])) && WsEnd(js, input, mid) == mid + 1 && Follow(js, input, mid)
      && mid + 1 + |ShowTerms(js, ts[1..])| == pos + |ShowTerms(js, ts)|
  {
    hide Show, ShowTerms, Parsed, RegExpFree, Lawful;
    var shown, rest := Show(js, ts[0], true), ShowTerms(js, ts[1..]);
    var mid := pos + |shown|;
    NextTerm(js, ts);
    HereSplit(input, pos, shown + [SPACE], rest);
    HereSplit(input, pos, shown, [SPACE]);
    HereAt(input, mid, [SPACE], 0);
    HereAt(input, mid + 1, rest, 0);
    assert WsEnd(js, input, mid + 1) == mid + 1;
  }

  lemma FirstOfTerms(js: Js, ts: seq<Node>)
    requires Lawful(js) && ts != [] && AllParsed(js, ts) && AllRegExpFree(ts)
    ensures Parsed(js, ts[0]) && RegExpFree(ts[0]) && Show(js, ts[0], true) != [] && Show(js, ts[0], true)[0] != RPAREN
    ensures |ts| == 1 ==> ts == [ts[0]] && ShowTerms(js, ts) == Show(js, ts[0], true)
    ensures |ts| > 1 ==> AllParsed(js, ts[1..]) && AllRegExpFree(ts[1..]) && Parsed(js, ts[1]) && RegExpFree(ts[1])
  {
    FirstUnit(js, ts[0]);
  }

  lemma EndFollows(js: Js, input: Text, end: nat)
    requires Lawful(js) && ListEnd(input, end)
    ensures Follow(js, input, end)
  {
    assert WsEnd(js, input, end) == end;
  }

  lemma {:induction false} TermsOutcome(js: Js, ts: seq<Node>, input: Text, pos: nat)
    requires Lawful(js) && ts != [] && AllParsed(js, ts) && AllRegExpFree(ts)
    requires Here(input, pos, ShowTerms(js, ts)) && ListEnd(input, pos + |ShowTerms(js, ts)|)
    ensures pos <= |input| && ListOutcome(js, ts, input, pos, pos + |ShowTerms(js, ts)|)
    decreases |ShowTerms(js, ts)|, 4
  {
    hide *;
    if |ts| == 1 {
      LastTermOutcome(js, ts, input, pos);
    } else {
      ManyTermsOutcome(js, ts, input, pos);
    }
  }

  lemma {:induction false} ManyTermsOutcome(js: Js, ts: seq<Node>, input: Text, pos: nat)
    requires Lawful(js) && |ts| >= 2 && AllParsed(js, ts) && AllRegExpFree(ts)
    requires Here(input, pos, ShowTerms(js, ts)) && ListEnd(input, pos + |ShowTerms(js, ts)|)
    ensures pos <= |input| && ListOutcome(js, ts, input, pos, pos + |ShowTerms(js, ts)|)
    decreases |ShowTerms(js, ts)|, 3
  {
    hide *;
    FirstOfTerms(js, ts);
    var mid := FirstTermOutcome(js, ts, input, pos);
    TermsOutcome(js, ts[1..], input, mid + 1);
    MoreTerms(js, ts, input, pos, mid, pos + |ShowTerms(js, ts)|);
  }

  lemma {:induction false} FirstTermOutcome(js: Js, ts: seq<Node>, input: Text, pos: nat) returns (mid: nat)
    requires Lawful(js) && |ts| >= 2 && Parsed(js, ts[0]) && RegExpFree(ts[0]) && Parsed(js, ts[1]) && RegExpFree(ts[1])
    requires Show(js, ts[0], true) != [] && Show(js, ts[0], true)[0] != RPAREN && Here(input, pos, ShowTerms(js, ts))
    ensures pos <= mid < |input| && input[pos] != RPAREN
    ensures Outcome(js, ts[0], input, pos, mid) && WsEnd(js, input, mid) == mid + 1
    ensures Here(input, mid + 1, ShowTerms(js, ts[1..]))
    ensures mid + 1 + |ShowTerms(js, ts[1..])| == pos + |ShowTerms(js, ts)|
    decreases |ShowTerms(js, ts)|, 2
  {
    hide *;
    mid := pos + |Show(js, ts[0], true)|;
    NextTermHere(js, ts, input, pos);
    HereAt(input, pos, Show(js, ts[0], true), 0);
    TermOutcome(js, ts[0], input, pos);
  }

  lemma {:induction false} LastTermOutcome(js: Js, ts: seq<Node>, input: Text, pos: nat)
    requires Lawful(js) && |ts| == 1 && AllParsed(js, ts) && AllRegExpFree(ts)
    requires Here(input, pos, ShowTerms(js, ts)) && ListEnd(input, pos + |ShowTerms(js, ts)|)
    ensures pos <= |input| && ListOutcome(js, ts, input, pos, pos + |ShowTerms(js, ts)|)
    decreases |ShowTerms(js, ts)|, 2
  {
    FirstOfTerms(js, ts);
    var t, end := ts[0], pos + |ShowTerms(js, ts)|;
    assert pos <= end <= |input|;
    hide *;
    HereAt(input, pos, Show(js, t, true), 0);
    EndFollows(js, input, end);
    TermOutcome(js, t, input, pos);
    OneTerm(js, t, input, pos, end);
  }

  lemma GroupHere(js: Js, ts: seq<Node>, input: Text, pos: nat)
    requires Lawful(js) && ts != [] && Parsed(js, ts[0]) && RegExpFree(ts[0])
    requires Here(input, pos, [LPAREN] + ShowTerms(js, ts) + [RPAREN])
    ensures Starts(input, pos, LPAREN) && WsEnd(js, input, pos + 1) == pos + 1
    ensures Here(input, pos + 1, ShowTerms(js, ts)) && Starts(input, pos + 1 + |ShowTerms(js, ts)|, RPAREN)
  {
    var shown := ShowTerms(js, ts);
    FirstUnit(js, ts[0]);
    assert shown != [] && shown[0] == Show(js, ts[0], true)[0];
    hide Show, ShowTerms, Parsed, RegExpFree;
    HereSplit(input, pos, [LPAREN] + shown, [RPAREN]);
    HereSplit(input, pos, [LPAREN], shown);
    HereAt(input, pos, [LPAREN], 0);
    HereAt(input, pos + 1, shown, 0);
    HereAt(input, pos + 1 + |shown|, [RPAREN], 0);
  }

  /** A parenthesised list. */
  lemma GroupOutcome(js: Js, ts: seq<Node>, input: Text, pos: nat, end: nat)
    requires Starts(input, pos, LPAREN) && WsEnd(js, input, pos + 1) == pos + 1 && Starts(input, end, RPAREN)
    requires ts != []
    requires ListOutcome(js, ts, input, pos + 1, end)
    ensures if AllPrintable(js, ts) then Group(js, input, pos) == Success(end + 1, ts)
      else !Group(js, input, pos).Success?
  {
  }

  /** Nothing but a group starts with a parenthesis or a bar. */
  lemma GroupAlone(js: Js, input: Text, pos: nat)
    requires Lawful(js) && (Starts(input, pos, LPAREN) || Starts(input, pos, PIPE))
    ensures Negation(js, input, pos) == Failure && Comparisons(js, input, pos) == Failure
    ensures PropertyTerm(js, input, pos) == Failure && Truthy(js, input, pos) == Failure
    ensures Value(js, input, pos) == Failure
    ensures Starts(input, pos, LPAREN) ==> OrGroup(js, input, pos) == Failure
    ensures Starts(input, pos, PIPE) ==> Group(js, input, pos) == Failure
  {
    assert !Raw(js, input[pos]) && !GlobUnit(js, input[pos]);
    assert PropertyName(js, input, pos) == Failure;
  }

  lemma {:induction false} AndOutcome(js: Js, t: Node, input: Text, pos: nat)
    requires Lawful(js) && t.And? && Parsed(js, t) && RegExpFree(t)
    requires Here(input, pos, Show(js, t, true))
    ensures Outcome(js, t, input, pos, pos + |Show(js, t, true)|)
    decreases |Show(js, t, true)|, 0
  {
    var ts := t.children;
    GroupHere(js, ts, input, pos);
    TermsOutcome(js, ts, input, pos + 1);
    var close := pos + 1 + |ShowTerms(js, ts)|;
    GroupOutcome(js, ts, input, pos, close);
    GroupAlone(js, input, pos);
    assert close + 1 == pos + |Show(js, t, true)| && MakeAnd(ts) == t && WsEnd(js, input, close + 1) >= close + 1;
    hide Lawful, Here, Show, Parsed, RegExpFree, Group, OrGroup, Comparisons, Value, Negation, PropertyTerm, Truthy,
      Repeat;
    if AllPrintable(js, ts) {
      assert Alternatives(js, input, pos) == Success(close + 1, t);
    } else {
      assert !Alternatives(js, input, pos).Success?;
    }
  }

  lemma {:induction false} OrOutcome(js: Js, t: Node, input: Text, pos: nat)
    requires Lawful(js) && t.Or? && Parsed(js, t) && RegExpFree(t)
    requires Here(input, pos, Show(js, t, true))
    ensures Outcome(js, t, input, pos, pos + |Show(js, t, true)|)
    decreases |Show(js, t, true)|, 0
  {
    var ts := t.children;
    OrHere(js, ts, input, pos);
    GroupHere(js, ts, input, pos + 1);
    TermsOutcome(js, ts, input, pos + 2);
    var close := pos + 2 + |ShowTerms(js, ts)|;
    GroupOutcome(js, ts, input, pos + 1, close);
    assert close + 1 == pos + |Show(js, t, true)| && MakeOr(ts) == t;
    hide *;
    OrIsGroup(js, t, input, pos, close + 1);
  }

  lemma OrIsGroup(js: Js, t: Node, input: Text, pos: nat, end: nat)
    requires Lawful(js) && t.Or? && MakeOr(t.children) == t && pos < end <= |input|
    requires Starts(input, pos, PIPE) && WsEnd(js, input, pos + 1) == pos + 1
    requires if AllPrintable(js, t.children) then Group(js, input, pos + 1) == Success(end, t.children)
      else !Group(js, input, pos + 1).Success?
    ensures Outcome(js, t, input, pos, end)
  {
    hide Lawful, Group, Comparisons, Value, Negation, PropertyTerm, Truthy, AllPrintable, MakeOr;
    GroupAlone(js, input, pos);
    assert OrGroup(js, input, pos) == Group(js, input, pos + 1);
    if AllPrintable(js, t.children) {
      assert Alternatives(js, input, pos) == Success(end, t);
    } else {
      assert !Alternatives(js, input, pos).Success?;
    }
  }

  lemma OrHere(js: Js, ts: seq<Node>, input: Text, pos: nat)
    requires Lawful(js) && Here(input, pos, [PIPE, LPAREN] + ShowTerms(js, ts) + [RPAREN])
    ensures Starts(input, pos, PIPE) && WsEnd(js, input, pos + 1) == pos + 1
    ensures Here(input, pos + 1, [LPAREN] + ShowTerms(js, ts) + [RPAREN])
  {
    var shown := ShowTerms(js, ts);
    assert [PIPE, LPAREN] + shown + [RPAREN] == [PIPE] + ([LPAREN] + shown + [RPAREN]);
    HereSplit(input, pos, [PIPE], [LPAREN] + shown + [RPAREN]);
    HereAt(input, pos, [PIPE], 0);
    HereAt(input, pos + 1, [LPAREN] + shown + [RPAREN], 0);
  }

  lemma LeafOutcome(js: Js, t: Node, input: Text, pos: nat)
    requires Lawful(js) && Parsed(js, t) && RegExpFree(t) && !t.And? && !t.Or? && !t.Not? && !t.Property?
    requires Here(input, pos, Show(js, t, true)) && Follow(js, input, pos + |Show(js, t, true)|)
    ensures Outcome(js, t, input, pos, pos + |Show(js, t, true)|)
  {
    assert !t.Null? && !t.RegExp?;
    if t.NumberOrString? || t.GlobPattern? {
      assert Show(js, t, true) == t.value && Printable(js, t);
      GlobOutcome(js, t, input, pos);
    } else {
      hide *;
      if t.Comparison? {
        ComparisonOutcome(js, t, input, pos);
      } else if t.String? {
        StringOutcome(js, t, input, pos);
      } else {
        TruthyOutcome(js, t, input, pos);
      }
    }
  }

  lemma ChildIsParsed(js: Js, t: Node)
    requires (t.Not? || t.Property?) && Parsed(js, t) && RegExpFree(t)
    ensures Parsed(js, t.child) && RegExpFree(t.child)
  {
  }

  /** A printed term is read back, or the parser stops or throws, by the condition on its leaves alone. */
  lemma {:induction false} TermOutcome(js: Js, t: Node, input: Text, pos: nat)
    requires Lawful(js) && Parsed(js, t) && RegExpFree(t)
    requires Here(input, pos, Show(js, t, true)) && Follow(js, input, pos + |Show(js, t, true)|)
    ensures Outcome(js, t, input, pos, pos + |Show(js, t, true)|)
    decreases |Show(js, t, true)|, 1
  {
    hide *;
    var end := pos + |Show(js, t, true)|;
    if t.And? {
      AndOutcome(js, t, input, pos);
    } else if t.Or? {
      OrOutcome(js, t, input, pos);
    } else if t.Not? {
      ChildIsParsed(js, t);
      NotHere(js, t, input, pos);
      TermOutcome(js, t.child, input, pos + 1);
      NotOutcome(js, t, input, pos, end);
    } else if t.Property? {
      ChildIsParsed(js, t);
      PropertyHere(js, t, input, pos);
      TermOutcome(js, t.child, input, pos + |Format(js, t.name)| + 1);
      PropertyOutcome(js, t, input, pos, end);
    } else {
      LeafOutcome(js, t, input, pos);
    }
  }

  // ----- the round trip ---------------------------------------------------------------------------------------

  /** A printed list of terms as a whole text. */
  lemma ListRoundTrip(js: Js, ts: seq<Node>)
    requires Lawful(js) && ts != [] && AllParsed(js, ts) && AllRegExpFree(ts)
    ensures var r := Parse(js, ShowTerms(js, ts));
      if AllPrintable(js, ts) then r == Success(|ShowTerms(js, ts)|, MakeAnd(ts)) else !r.Success?
  {
    var text := ShowTerms(js, ts);
    FirstUnit(js, ts[0]);
    assert text[0] == Show(js, ts[0], true)[0];
    assert text[0..0 + |text|] == text;
    assert WsEnd(js, text, 0) == 0;
    TermsOutcome(js, ts, text, 0);
  }

  /**
   * Every filter that parses, and has no regular expression, prints to a text that parses to the same
   * filter if and only if its leaves are printable and none compares with -0, which comes back as 0.
   */
  lemma RoundTrip(js: Js, text: Text)
    requires Lawful(js) && Parse(js, text).Success?
    requires Parse(js, text).value == Null || RegExpFree(Parse(js, text).value)
    ensures var t := Parse(js, text).value;
      var again := Parse(js, Show(js, t, false));
      if Printable(js, t) then again.Success? && again.value == Positive(t) else !again.Success?
  {
    var tree := Parse(js, text).value;
    var t := Positive(tree);
    ParseIsParsed(js, text);
    PositiveSame(js, tree, false);
    hide Parse;
    if t == Null {
      NullRoundTrip(js);
    } else if t.And? {
      ListRoundTrip(js, t.children);
    } else {
      OnePrintable(js, t);
      assert ShowTerms(js, [t]) == Show(js, t, true) == Show(js, t, false);
      ListRoundTrip(js, [t]);
    }
  }

  lemma NullRoundTrip(js: Js)
    requires Lawful(js)
    ensures var r := Parse(js, []); r.Success? && r.value == Null
  {
    NoTerm(js, [], 0);
  }
}
