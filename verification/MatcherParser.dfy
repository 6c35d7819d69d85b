/** The grammar of complex-matcher, as a parser over positions of the input. */
module MatcherParser {
  import opened MatcherSyntax

  /** Thrown stands for an exception, which no alternative catches. */
  datatype Result<+T> = Success(pos: nat, value: T) | Failure | Thrown

  // ----- scanners ------------------------------------------------------------------------------

  /** Position after the whitespace at `pos`. */
  function WsEnd(js: Js, input: Text, pos: nat): (end: nat)
    requires pos <= |input|
    ensures pos <= end <= |input|
    ensures end < |input| ==> !js.space(input[end])
    ensures forall k | pos <= k < end :: js.space(input[k])
    decreases |input| - pos
  {
    if pos < |input| && js.space(input[pos]) then WsEnd(js, input, pos + 1) else pos
  }

  predicate Starts(input: Text, pos: nat, u: Unit) { pos < |input| && input[pos] == u }

  function RawEnd(js: Js, input: Text, pos: nat): (end: nat)
    requires pos <= |input|
    ensures pos <= end <= |input|
    ensures end < |input| ==> !Raw(js, input[end])
    ensures forall k | pos <= k < end :: Raw(js, input[k])
    decreases |input| - pos
  {
    if pos < |input| && Raw(js, input[pos]) then RawEnd(js, input, pos + 1) else pos
  }

  method ScanRaw(js: Js, input: Text, start: nat) returns (end: nat, value: Text)
    requires start <= |input|
    ensures end == RawEnd(js, input, start) && value == input[start..end]
  {
    var pos := start;
    value := [];
    while pos < |input| && Raw(js, input[pos])
      invariant start <= pos <= |input| && value == input[start..pos]
      invariant RawEnd(js, input, pos) == RawEnd(js, input, start)
    {
      value := value + [input[pos]];
      pos := pos + 1;
    }
    end := pos;
  }

  predicate GlobUnit(js: Js, u: Unit) { u == STAR || Raw(js, u) }

  function GlobEnd(js: Js, input: Text, pos: nat): (end: nat)
    requires pos <= |input|
    ensures pos <= end <= |input|
    ensures end < |input| ==> !GlobUnit(js, input[end])
    ensures forall k | pos <= k < end :: GlobUnit(js, input[k])
    decreases |input| - pos
  {
    if pos < |input| && GlobUnit(js, input[pos]) then GlobEnd(js, input, pos + 1) else pos
  }

  function RawString(js: Js, input: Text, pos: nat): (r: Result<Text>)
    ensures r.Success? ==> pos < r.pos <= |input| && r.value == input[pos..r.pos]
  {
    if pos >= |input| then Failure
    else
      var end := RawEnd(js, input, pos);
      if end == pos then Failure else Success(end, input[pos..end])
  }

  function Glob(js: Js, input: Text, pos: nat): (r: Result<Text>)
    ensures r.Success? ==> pos < r.pos <= |input| && r.value == input[pos..r.pos]
  {
    if pos >= |input| then Failure
    else
      var end := GlobEnd(js, input, pos);
      if end == pos then Failure else Success(end, input[pos..end])
  }

  /**
   * The rest of a quoted string: up to the closing quote or the end of the input. A backslash takes
   * the next unit as it is; at the very end there is none, and the position runs past the end.
   */
  function QuotedRest(input: Text, pos: nat): (r: (nat, Text))
    requires pos <= |input| + 1
    ensures pos <= r.0 <= |input| + 1
    decreases |input| + 1 - pos
  {
    if pos >= |input| then (pos, [])
    else if input[pos] == QUOTE then (pos + 1, [])
    else if input[pos] == BACKSLASH then
      var rest := QuotedRest(input, pos + 2);
      (rest.0, (if pos + 1 < |input| then [input[pos + 1]] else []) + rest.1)
    else
      var rest := QuotedRest(input, pos + 1);
      (rest.0, [input[pos]] + rest.1)
  }

  method ScanQuoted(input: Text, start: nat) returns (end: nat, value: Text)
    requires start <= |input|
    ensures (end, value) == QuotedRest(input, start)
  {
    var pos := start;
    value := [];
    ghost var goal := QuotedRest(input, start);
    while pos < |input|
      invariant start <= pos <= |input| + 1
      invariant goal.0 == QuotedRest(input, pos).0 && goal.1 == value + QuotedRest(input, pos).1
    {
      var c := input[pos];
      pos := pos + 1;
      if c == QUOTE {
        assert value + [] == value;
        return pos, value;
      }
      if c == BACKSLASH {
        if pos < |input| {
          value := value + [input[pos]];
        }
        pos := pos + 1;
      } else {
        value := value + [c];
      }
    }
    assert value + [] == value;
    end := pos;
  }

  function QuotedString(input: Text, pos: nat): (r: Result<Text>)
    ensures r.Success? ==> pos < r.pos <= |input| + 1
    ensures !r.Thrown?
  {
    if !Starts(input, pos, QUOTE) then Failure
    else
      var rest := QuotedRest(input, pos + 1);
      Success(rest.0, rest.1)
  }

  /** P.alt(quotedString, rawString) */
  function PropertyName(js: Js, input: Text, pos: nat): (r: Result<Text>)
    ensures r.Success? ==> pos < r.pos
    ensures !r.Thrown?
  {
    var quoted := QuotedString(input, pos);
    if quoted.Success? then quoted else RawString(js, input, pos)
  }

  /** The body of a regular expression: position, pattern and last unit read. */
  function RegexRest(input: Text, pos: nat, escaped: bool, last: int): (r: (nat, Text, int))
    requires pos <= |input|
    ensures pos <= r.0 <= |input|
    decreases |input| - pos
  {
    if pos >= |input| then (pos, [], last)
    else if input[pos] == SLASH && !escaped then (pos + 1, [], SLASH)
    else
      var rest := RegexRest(input, pos + 1, input[pos] == BACKSLASH, input[pos]);
      (rest.0, [input[pos]] + rest.1, rest.2)
  }

  function Regex(js: Js, input: Text, pos: nat): (r: Result<Node>)
    ensures r.Success? ==> pos < r.pos <= |input| && r.value.RegExp?
  {
    if !Starts(input, pos, SLASH) then Failure
    else
      var body := RegexRest(input, pos + 1, false, -1);
      if body.2 != SLASH then Failure
      else
        var ignoreCase := Starts(input, body.0, LOWER_I);
        if js.validPattern(body.1) then Success(if ignoreCase then body.0 + 1 else body.0, RegExp(body.1, ignoreCase))
        else Thrown
  }

  /** /[<>]=?/ */
  function OperatorAt(input: Text, pos: nat): (r: Result<Operator>)
    ensures r.Success? ==> pos < r.pos <= |input|
  {
    if Starts(input, pos, LESS) then
      if Starts(input, pos + 1, EQUALS) then Success(pos + 2, LessOrEqual) else Success(pos + 1, Less)
    else if Starts(input, pos, GREATER) then
      if Starts(input, pos + 1, EQUALS) then Success(pos + 2, GreaterOrEqual) else Success(pos + 1, Greater)
    else Failure
  }

  // ----- terms -----------------------------------------------------------------------------------

  /** The constructors And and Or give back their only child. */
  function MakeAnd(children: seq<Node>): Node { if |children| == 1 then children[0] else And(children) }

  function MakeOr(children: seq<Node>): Node { if |children| == 1 then children[0] else Or(children) }

  function MakeGlob(js: Js, s: Text): Node {
    if js.numeric(s) then NumberOrString(s) else if STAR in s then GlobPattern(s) else String(s)
  }

  function Comparisons(js: Js, input: Text, pos: nat): (r: Result<Node>)
    ensures r.Success? ==> pos < r.pos
  {
    var op := OperatorAt(input, pos);
    if !op.Success? then Failure
    else
      var number := RawString(js, input, op.pos);
      if !number.Success? then Failure
      else if js.numeric(number.value) then
        Success(number.pos, Comparison(op.value, js.canonical(number.value), js.negativeZero(number.value)))
      else Thrown
  }

  function Truthy(js: Js, input: Text, pos: nat): (r: Result<Node>)
    ensures r.Success? ==> pos < r.pos
  {
    var name := PropertyName(js, input, pos);
    if name.Success? && Starts(input, name.pos, QUESTION) then Success(name.pos + 1, TruthyProperty(name.value))
    else Failure
  }

  function Value(js: Js, input: Text, pos: nat): (r: Result<Node>)
    ensures r.Success? ==> pos < r.pos
  {
    var quoted := QuotedString(input, pos);
    if quoted.Success? then Success(quoted.pos, String(quoted.value))
    else
      var regex := Regex(js, input, pos);
      if !regex.Failure? then regex
      else
        var glob := Glob(js, input, pos);
        if glob.Success? then Success(glob.pos, MakeGlob(js, glob.value)) else Failure
  }

  /** '(' ws term+ ')' */
  function Group(js: Js, input: Text, pos: nat): (r: Result<seq<Node>>)
    ensures r.Success? ==> pos < r.pos <= |input| && r.value != []
    decreases if pos <= |input| then |input| - pos else 0, 0
  {
    if !Starts(input, pos, LPAREN) then Failure
    else
      var terms := Repeat(js, input, WsEnd(js, input, pos + 1));
      if terms.Thrown? then Thrown
      else if terms.Success? && terms.value != [] && Starts(input, terms.pos, RPAREN)
      then Success(terms.pos + 1, terms.value)
      else Failure
  }

  /** '|' ws '(' ws term+ ')' */
  function OrGroup(js: Js, input: Text, pos: nat): (r: Result<seq<Node>>)
    ensures r.Success? ==> pos < r.pos <= |input| && r.value != []
    decreases if pos <= |input| then |input| - pos else 0, 1
  {
    if !Starts(input, pos, PIPE) then Failure else Group(js, input, WsEnd(js, input, pos + 1))
  }

  function Negation(js: Js, input: Text, pos: nat): (r: Result<Node>)
    ensures r.Success? ==> pos < r.pos <= |input|
    decreases if pos <= |input| then |input| - pos else 0, 1
  {
    if !Starts(input, pos, BANG) then Failure
    else
      var child := Term(js, input, WsEnd(js, input, pos + 1));
      if child.Success? then Success(child.pos, Not(child.value)) else child
  }

  /** property ws ':' ws term */
  function PropertyTerm(js: Js, input: Text, pos: nat): (r: Result<Node>)
    ensures r.Success? ==> pos < r.pos <= |input|
    decreases if pos <= |input| then |input| - pos else 0, 1
  {
    var name := PropertyName(js, input, pos);
    if !name.Success? || name.pos > |input| then Failure
    else
      var colon := WsEnd(js, input, name.pos);
      if !Starts(input, colon, COLON) then Failure
      else
        var child := Term(js, input, WsEnd(js, input, colon + 1));
        if child.Success? then Success(child.pos, Property(name.value, child.value)) else child
  }

  /** The alternatives of a term, in order: the first that succeeds or throws decides. */
  function Alternatives(js: Js, input: Text, pos: nat): (r: Result<Node>)
    ensures r.Success? ==> pos < r.pos
    decreases if pos <= |input| then |input| - pos else 0, 2
  {
    var group := Group(js, input, pos);
    if group.Success? then Success(group.pos, MakeAnd(group.value))
    else if group.Thrown? then Thrown
    else
      var either := OrGroup(js, input, pos);
      if either.Success? then Success(either.pos, MakeOr(either.value))
      else if either.Thrown? then Thrown
      else
        var negation := Negation(js, input, pos);
        if !negation.Failure? then negation
        else
          var comparison := Comparisons(js, input, pos);
          if !comparison.Failure? then comparison
          else
            var property := PropertyTerm(js, input, pos);
            if !property.Failure? then property
            else
              var truthy := Truthy(js, input, pos);
              if truthy.Success? then truthy else Value(js, input, pos)
  }

  /** A term and the whitespace after it. */
  function Term(js: Js, input: Text, pos: nat): (r: Result<Node>)
    ensures r.Success? ==> pos < r.pos <= |input|
    decreases if pos <= |input| then |input| - pos else 0, 3
  {
    var term := Alternatives(js, input, pos);
    if !term.Success? then term
    else if term.pos <= |input| then Success(WsEnd(js, input, term.pos), term.value)
    else Failure
  }

  /** term* */
  function Repeat(js: Js, input: Text, pos: nat): (r: Result<seq<Node>>)
    requires pos <= |input|
    ensures r.Success? ==> pos <= r.pos <= |input|
    ensures !r.Failure?
    decreases |input| - pos, 4
  {
    var term := Term(js, input, pos);
    match term
    case Thrown => Thrown
    case Failure => Success(pos, [])
    case Success(next, value) =>
      var rest := Repeat(js, input, next);
      if rest.Success? then Success(rest.pos, [value] + rest.value) else rest
  }

  /** The whole text; the position in the result carries no meaning. */
  function Parse(js: Js, input: Text): Result<Node> {
    var terms := Repeat(js, input, WsEnd(js, input, 0));
    if terms.Thrown? then Thrown
    else if terms.Success? && terms.pos >= |input| then
      Success(terms.pos, if terms.value == [] then Null else MakeAnd(terms.value))
    else Failure
  }
}
