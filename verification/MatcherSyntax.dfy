/**
 * Filter texts and their trees: the nodes of complex-matcher and how they print.
 *
 * A text is a sequence of UTF-16 code units, as in JavaScript. What depends on Unicode tables or on
 * the conversion between numbers and text is a parameter, `Js`, with the laws in `Lawful`.
 */
module MatcherSyntax {
  type Unit = u: int | 0 <= u < 0x10000
  type Text = seq<Unit>

  const SPACE: Unit := 0x20
  const BANG: Unit := 0x21
  const QUOTE: Unit := 0x22
  const LPAREN: Unit := 0x28
  const RPAREN: Unit := 0x29
  const STAR: Unit := 0x2A
  const SLASH: Unit := 0x2F
  const COLON: Unit := 0x3A
  const LESS: Unit := 0x3C
  const EQUALS: Unit := 0x3D
  const GREATER: Unit := 0x3E
  const QUESTION: Unit := 0x3F
  const BACKSLASH: Unit := 0x5C
  const LOWER_I: Unit := 0x69
  const PIPE: Unit := 0x7C

  /** The units with a meaning of their own in the grammar. */
  const SYNTAX: set<Unit> :=
    {BANG, QUOTE, LPAREN, RPAREN, STAR, SLASH, COLON, LESS, EQUALS, GREATER, QUESTION, BACKSLASH, PIPE}

  datatype Js = Js(
    cased: Unit -> bool,              // lower and upper case differ, for a single unit
    casedPair: (Unit, Unit) -> bool,  // the same for a character made of two surrogates
    space: Unit -> bool,              // matched by \s
    numeric: Text -> bool,            // conversion to a number does not give NaN
    canonical: Text -> Text,          // the text of the number it converts to
    negativeZero: Text -> bool,       // that number is -0, whose text is that of 0
    validPattern: Text -> bool,       // accepted by the RegExp constructor
    source: Text -> Text              // the source property of the RegExp
  )

  predicate HighSurrogate(u: Unit) { 0xD800 <= u < 0xDC00 }

  predicate LowSurrogate(u: Unit) { 0xDC00 <= u < 0xE000 }

  predicate Surrogate(u: Unit) { HighSurrogate(u) || LowSurrogate(u) }

  /** isRawStringChar, for a character of one unit. */
  predicate Raw(js: Js, u: Unit) {
    (0x30 <= u <= 0x39) || u == 0x5F || u == 0x2D || u == 0x2E || u == 0x24 || js.cased(u)
  }

  predicate AllRaw(js: Js, s: Text) {
    forall i | 0 <= i < |s| :: Raw(js, s[i])
  }

  /** isRawString: by characters, so that two surrogates count as one character. */
  predicate IsRawString(js: Js, s: Text) {
    if s == [] then true
    else if |s| >= 2 && HighSurrogate(s[0]) && LowSurrogate(s[1])
    then js.casedPair(s[0], s[1]) && IsRawString(js, s[2..])
    else Raw(js, s[0]) && IsRawString(js, s[1..])
  }

  /** How many leading units are raw. */
  function RawLength(js: Js, s: Text): (n: nat)
    ensures n <= |s| && AllRaw(js, s[..n]) && (n < |s| ==> !Raw(js, s[n]))
  {
    if s == [] || !Raw(js, s[0]) then 0
    else
      var n := 1 + RawLength(js, s[1..]);
      assert s[..n] == [s[0]] + s[1..][..n - 1];
      n
  }

  /** Facts about JavaScript that the grammar relies on. */
  ghost predicate Lawful(js: Js) {
    && js.space(SPACE)
    && (forall u: Unit | js.cased(u) :: u !in SYNTAX && !Surrogate(u))
    && (forall u: Unit | js.space(u) :: u !in SYNTAX && !Surrogate(u) && !Raw(js, u))
    && js.numeric([])
    && (forall s: Text | js.numeric(s) :: QUOTE !in s && BACKSLASH !in s && STAR !in s)
    && (forall s: Text | js.numeric(s) :: LawfulNumber(js, js.canonical(s)))
    && (forall s: Text | js.numeric(s) :: !js.negativeZero(js.canonical(s)))
  }

  /**
   * The text of a number starts with a raw unit, stands for the same number, and if it is not raw
   * throughout (an exponent with a plus sign) its raw beginning is no number.
   */
  predicate LawfulNumber(js: Js, c: Text) {
    && c != [] && Raw(js, c[0]) && js.numeric(c) && js.canonical(c) == c
    && (AllRaw(js, c) || !js.numeric(c[..RawLength(js, c)]))
  }

  datatype Operator = Less | LessOrEqual | Greater | GreaterOrEqual

  datatype Node =
    | Null
    | And(children: seq<Node>)
    | Or(children: seq<Node>)
    | Not(child: Node)
    | Comparison(operator: Operator, number: Text, negativeZero: bool) // a number by its text
    | Property(name: Text, child: Node)
    | TruthyProperty(name: Text)
    | String(value: Text)
    | NumberOrString(value: Text)
    | GlobPattern(value: Text)
    | RegExp(pattern: Text, ignoreCase: bool)

  // ----- printing -----------------------------------------------------------------------------

  function Escape(s: Text): Text {
    if s == [] then []
    else (if s[0] == BACKSLASH || s[0] == QUOTE then [BACKSLASH, s[0]] else [s[0]]) + Escape(s[1..])
  }

  /** formatString */
  function Format(js: Js, s: Text): Text {
    if js.numeric(s) then [QUOTE] + s + [QUOTE]
    else if IsRawString(js, s) then s
    else [QUOTE] + Escape(s) + [QUOTE]
  }

  function OperatorText(op: Operator): Text {
    match op
    case Less => [LESS]
    case LessOrEqual => [LESS, EQUALS]
    case Greater => [GREATER]
    case GreaterOrEqual => [GREATER, EQUALS]
  }

  /** toString(isNested) */
  function Show(js: Js, t: Node, nested: bool): Text
    decreases t
  {
    match t
    case Null => []
    case And(children) => if nested then [LPAREN] + ShowTerms(js, children) + [RPAREN] else ShowTerms(js, children)
    case Or(children) => [PIPE, LPAREN] + ShowTerms(js, children) + [RPAREN]
    case Not(child) => [BANG] + Show(js, child, true)
    case Comparison(op, number, _) => OperatorText(op) + number
    case Property(name, child) => Format(js, name) + [COLON] + Show(js, child, true)
    case TruthyProperty(name) => Format(js, name) + [QUESTION]
    case String(value) => Format(js, value)
    case NumberOrString(value) => value
    case GlobPattern(value) => value
    case RegExp(pattern, ignoreCase) => [SLASH] + js.source(pattern) + [SLASH] + if ignoreCase then [LOWER_I] else []
  }

  function ShowTerms(js: Js, ts: seq<Node>): Text
    decreases ts
  {
    if ts == [] then []
    else if |ts| == 1 then Show(js, ts[0], true)
    else Show(js, ts[0], true) + [SPACE] + ShowTerms(js, ts[1..])
  }
}
