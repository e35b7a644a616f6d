/** Context expressions of TOML configurations: their values, and the dimensions they mention. */
module TomlExpressions {
  import opened Sequences
  import opened Wrappers

  type Int64 = n: int | -0x8000_0000_0000_0000 <= n < 0x8000_0000_0000_0000

  datatype Float = NaN | NegativeInfinity | Finite(value: real) | PositiveInfinity

  datatype Value =
    | String(chars: string)
    | Integer(number: Int64)
    | Float(float: Float)
    | Boolean(flag: bool)
    | Datetime(text: string)
    | Array(items: seq<Value>)
    | Table(entries: map<string, Value>)

  datatype Operator = Less | Greater | Equal | Different | AtLeast | AtMost

  datatype Term =
    | BoolLiteral(flag: bool)
    | StringLiteral(chars: string)
    | FloatLiteral(float: Float)
    | IntegerLiteral(magnitude: nat)
    | Dimension(name: string)

  datatype Comparison = Comparison(left: Term, operator: Operator, right: Term)

  /** Comparisons joined by "and". */
  datatype Conjunction = Conjunction(first: Comparison, rest: seq<Comparison>)

  /** Conjunctions joined by "or". */
  datatype Expression = Expression(first: Conjunction, rest: seq<Conjunction>)

  // ---------- Comparing values ----------

  datatype Ordering = Below | Same | Above | Unordered

  function Holds(operator: Operator, ordering: Ordering): bool {
    match operator
    case Less => ordering == Below
    case Greater => ordering == Above
    case Equal => ordering == Same
    case Different => ordering != Same
    case AtLeast => ordering == Above || ordering == Same
    case AtMost => ordering == Below || ordering == Same
  }

  function OrderInts(a: int, b: int): Ordering {
    if a < b then Below else if a == b then Same else Above
  }

  function OrderStrings(a: string, b: string): Ordering {
    if a == "" && b == "" then Same
    else if a == "" then Below
    else if b == "" then Above
    else if a[0] != b[0] then if a[0] < b[0] then Below else Above
    else OrderStrings(a[1..], b[1..])
  }

  function OrderFloats(a: Float, b: Float): Ordering {
    if a.NaN? || b.NaN? then Unordered
    else if a == b then Same
    else if a.NegativeInfinity? || b.PositiveInfinity? then Below
    else if a.PositiveInfinity? || b.NegativeInfinity? then Above
    else if a.value < b.value then Below
    else Above
  }

  /** The number that decimal digits write, if there are any and nothing else. */
  function ParseDigits(digits: string): Option<nat> {
    if digits == "" then None
    else
      var last := digits[|digits| - 1];
      if !('0' <= last <= '9') then None
      else if |digits| == 1 then Some(last as nat - '0' as nat)
      else
        var init := ParseDigits(digits[..|digits| - 1]);
        if init.None? then None else Some(init.value * 10 + (last as nat - '0' as nat))
  }

  /** A string read as an integer, zero where it is none or too large. */
  function AsInteger(s: string): Int64 {
    var digits := ParseDigits(if s != "" && (s[0] == '-' || s[0] == '+') then s[1..] else s);
    if digits.None? then 0
    else
      var magnitude: int := digits.value;
      var n := if s[0] == '-' then -magnitude else magnitude;
      if -0x8000_0000_0000_0000 <= n < 0x8000_0000_0000_0000 then n else 0
  }

  /** How a string is read as a float. */
  type FloatReading = string -> Option<Float>

  function AsFloat(s: string, read: FloatReading): Float {
    var float := read(s);
    if float.Some? then float.value else Finite(0.0)
  }

  /** The outcome of a comparison, or nothing where the program panics. A boolean on the left
      decides alone, whatever the operator and the right. */
  function Compared(left: Value, operator: Operator, right: Value, read: FloatReading): Option<bool> {
    match (left, right)
    case (Integer(a), Integer(b)) => Some(Holds(operator, OrderInts(a, b)))
    case (String(a), String(b)) => Some(Holds(operator, OrderStrings(a, b)))
    case (Float(a), Float(b)) => Some(Holds(operator, OrderFloats(a, b)))
    case (String(a), Integer(b)) => Some(Holds(operator, OrderInts(AsInteger(a), b)))
    case (String(a), Float(b)) => Some(Holds(operator, OrderFloats(AsFloat(a, read), b)))
    case (Boolean(flag), _) => Some(flag)
    case _ => None
  }

  /** The pairs of values that can be compared. */
  predicate Comparable(left: Value, right: Value) {
    left.Boolean? || (left.Integer? && right.Integer?) || (left.Float? && right.Float?) ||
    (left.String? && (right.String? || right.Integer? || right.Float?))
  }

  // ---------- What an expression means ----------

  datatype Request = Request(given: map<string, Value>, read: FloatReading)

  /** The value of a term; an integer literal that does not fit is a panic, a dimension without
      a value is false. */
  function TermValue(term: Term, request: Request): Option<Value> {
    match term
    case BoolLiteral(flag) => Some(Boolean(flag))
    case StringLiteral(chars) => Some(String(chars))
    case FloatLiteral(float) => Some(Value.Float(float))
    case IntegerLiteral(magnitude) =>
      if magnitude < 0x8000_0000_0000_0000 then Some(Integer(magnitude)) else None
    case Dimension(name) => Some(if name in request.given then request.given[name] else Boolean(false))
  }

  predicate Defined(comparison: Comparison, request: Request) {
    var left, right := TermValue(comparison.left, request), TermValue(comparison.right, request);
    left.Some? && right.Some? && Comparable(left.value, right.value)
  }

  predicate True(comparison: Comparison, request: Request) {
    Defined(comparison, request) &&
    Compared(TermValue(comparison.left, request).value, comparison.operator,
             TermValue(comparison.right, request).value, request.read) == Some(true)
  }

  /** Every comparison of the list can be made. */
  predicate AllDefined(comparisons: seq<Comparison>, request: Request) {
    comparisons == [] ||
    (AllDefined(comparisons[..|comparisons| - 1], request) && Defined(comparisons[|comparisons| - 1], request))
  }

  /** Every comparison of the list is true. */
  predicate AllTrue(comparisons: seq<Comparison>, request: Request) {
    comparisons == [] ||
    (AllTrue(comparisons[..|comparisons| - 1], request) && True(comparisons[|comparisons| - 1], request))
  }

  function Comparisons(conjunction: Conjunction): seq<Comparison> {
    [conjunction.first] + conjunction.rest
  }

  function Conjunctions(expression: Expression): seq<Conjunction> {
    [expression.first] + expression.rest
  }

  /** Every conjunction of the list consists of comparisons that can be made. */
  predicate EachDefined(conjunctions: seq<Conjunction>, request: Request) {
    conjunctions == [] ||
    (EachDefined(conjunctions[..|conjunctions| - 1], request)
     && AllDefined(Comparisons(conjunctions[|conjunctions| - 1]), request))
  }

  /** Some conjunction of the list consists of true comparisons. */
  predicate SomeTrue(conjunctions: seq<Conjunction>, request: Request) {
    conjunctions != [] &&
    (SomeTrue(conjunctions[..|conjunctions| - 1], request)
     || AllTrue(Comparisons(conjunctions[|conjunctions| - 1]), request))
  }

  /** Every comparison anywhere in the expression can be made. */
  predicate ExpressionDefined(expression: Expression, request: Request) {
    EachDefined(Conjunctions(expression), request)
  }

  /** The comparisons of some conjunction are all true. */
  predicate ExpressionTrue(expression: Expression, request: Request) {
    SomeTrue(Conjunctions(expression), request)
  }

  // ---------- The dimensions an expression mentions ----------

  function TermDimensions(term: Term): seq<string> {
    if term.Dimension? then [term.name] else []
  }

  function ComparisonDimensions(comparison: Comparison): seq<string> {
    TermDimensions(comparison.left) + TermDimensions(comparison.right)
  }

  function AllComparisonDimensions(comparisons: seq<Comparison>): seq<string> {
    if comparisons == [] then []
    else
      AllComparisonDimensions(comparisons[..|comparisons| - 1]) +
      ComparisonDimensions(comparisons[|comparisons| - 1])
  }

  function AllConjunctionDimensions(conjunctions: seq<Conjunction>): seq<string> {
    if conjunctions == [] then []
    else
      AllConjunctionDimensions(conjunctions[..|conjunctions| - 1]) +
      AllComparisonDimensions(Comparisons(conjunctions[|conjunctions| - 1]))
  }

  /** The dimensions of an expression from left to right, as often as they occur. */
  function Dimensions(expression: Expression): seq<string> {
    AllConjunctionDimensions(Conjunctions(expression))
  }

  // ---------- The evaluator ----------

  /** Where the evaluator writes down the dimensions it comes across. */
  class Extraction {
    var dimensions: seq<string>

    constructor ()
      ensures dimensions == []
    {
      dimensions := [];
    }
  }

  method EvaluateTerm(term: Term, request: Request, extracted: Extraction) returns (value: Option<Value>)
    modifies extracted
    ensures value == TermValue(term, request)
    ensures extracted.dimensions == old(extracted.dimensions) + TermDimensions(term)
  {
    match term {
      case BoolLiteral(flag) => return Some(Boolean(flag));
      case StringLiteral(chars) => return Some(String(chars));
      case FloatLiteral(float) => return Some(Value.Float(float));
      case IntegerLiteral(magnitude) =>
        if magnitude >= 0x8000_0000_0000_0000 {
          return None;
        }
        return Some(Integer(magnitude));
      case Dimension(name) =>
        extracted.dimensions := extracted.dimensions + [name];
        return Some(if name in request.given then request.given[name] else Boolean(false));
    }
  }

  method EvaluateComparison(comparison: Comparison, request: Request, extracted: Extraction)
    returns (value: Option<Value>)
    modifies extracted
    ensures value.Some? <==> Defined(comparison, request)
    ensures value.Some? ==> value.value == Boolean(True(comparison, request))
    ensures value.Some? ==>
      extracted.dimensions == old(extracted.dimensions) + ComparisonDimensions(comparison)
  {
    var left := EvaluateTerm(comparison.left, request, extracted);
    if left.None? {
      return None;
    }
    var right := EvaluateTerm(comparison.right, request, extracted);
    if right.None? {
      return None;
    }
    var compared := Compared(left.value, comparison.operator, right.value, request.read);
    return if compared.Some? then Some(Boolean(compared.value)) else None;
  }

  lemma Associative(a: seq<string>, b: seq<string>, c: seq<string>)
    ensures a + b + c == a + (b + c)
  {
  }

  /** What evaluating a list so far has come to: its value, and the dimensions written down. */
  ghost predicate Conjoined(done: seq<Comparison>, request: Request, flag: bool, written: seq<string>) {
    AllDefined(done, request) && flag == AllTrue(done, request) && written == AllComparisonDimensions(done)
  }

  lemma OneMoreComparison(done: seq<Comparison>, next: Comparison, request: Request, flag: bool, written: seq<string>)
    requires Conjoined(done, request, flag, written) && Defined(next, request)
    ensures Conjoined(done + [next], request, flag && True(next, request),
                     written + ComparisonDimensions(next))
  {
    var more := done + [next];
    assert more[..|more| - 1] == done && more[|more| - 1] == next;
  }

  lemma {:induction false} UndefinedComparison(all: seq<Comparison>, i: nat, request: Request)
    requires i < |all| && !Defined(all[i], request)
    ensures !AllDefined(all, request)
  {
    if i < |all| - 1 {
      UndefinedComparison(all[..|all| - 1], i, request);
    }
  }

  method EvaluateAnd(conjunction: Conjunction, request: Request, extracted: Extraction) returns (value: Option<Value>)
    modifies extracted
    ensures value.Some? <==> AllDefined(Comparisons(conjunction), request)
    ensures value.Some? ==> value.value == Boolean(AllTrue(Comparisons(conjunction), request))
    ensures value.Some? ==>
        extracted.dimensions == old(extracted.dimensions) + AllComparisonDimensions(Comparisons(conjunction))
  {
    var pairs := Comparisons(conjunction);
    ghost var start := extracted.dimensions;
    var first := EvaluateComparison(pairs[0], request, extracted);
    if first.None? {
      UndefinedComparison(pairs, 0, request);
      return None;
    }
    ghost var seen := ComparisonDimensions(pairs[0]);
    OneMoreComparison([], pairs[0], request, true, []);
    assert [] + [pairs[0]] == pairs[..1] && [] + seen == seen;
    var result := first.value.flag;
    for i := 1 to |pairs|
      invariant Conjoined(pairs[..i], request, result, seen)
      invariant extracted.dimensions == start + seen
    {
      var next := EvaluateComparison(pairs[i], request, extracted);
      if next.None? {
        UndefinedComparison(pairs, i, request);
        return None;
      }
      OneMoreComparison(pairs[..i], pairs[i], request, result, seen);
      TakeOneMore(pairs, i);
      Associative(start, seen, ComparisonDimensions(pairs[i]));
      seen := seen + ComparisonDimensions(pairs[i]);
      result := result && next.value.flag;
    }
    assert pairs[..|pairs|] == pairs;
    return Some(Boolean(result));
  }

  /** What evaluating a list so far has come to: its value, and the dimensions written down. */
  ghost predicate Disjoined(done: seq<Conjunction>, request: Request, flag: bool, written: seq<string>) {
    EachDefined(done, request) && flag == SomeTrue(done, request) && written == AllConjunctionDimensions(done)
  }

  lemma OneMoreConjunction(done: seq<Conjunction>, next: Conjunction, request: Request, flag: bool,
                           written: seq<string>)
    requires Disjoined(done, request, flag, written) && AllDefined(Comparisons(next), request)
    ensures Disjoined(done + [next], request, flag || AllTrue(Comparisons(next), request),
                     written + AllComparisonDimensions(Comparisons(next)))
  {
    var more := done + [next];
    assert more[..|more| - 1] == done && more[|more| - 1] == next;
  }

  lemma {:induction false} UndefinedConjunction(all: seq<Conjunction>, i: nat, request: Request)
    requires i < |all| && !AllDefined(Comparisons(all[i]), request)
    ensures !EachDefined(all, request)
  {
    if i < |all| - 1 {
      UndefinedConjunction(all[..|all| - 1], i, request);
    }
  }

  /** Evaluates an expression. It panics exactly when some comparison in it cannot be made,
      whatever the others say; otherwise its value is a boolean, and all its dimensions have
      been written down. */
  method EvaluateOr(expression: Expression, request: Request, extracted: Extraction) returns (value: Option<Value>)
    modifies extracted
    ensures value.Some? <==> ExpressionDefined(expression, request)
    ensures value.Some? ==> value.value == Boolean(ExpressionTrue(expression, request))
    ensures value.Some? ==> extracted.dimensions == old(extracted.dimensions) + Dimensions(expression)
  {
    var pairs := Conjunctions(expression);
    ghost var start := extracted.dimensions;
    var first := EvaluateAnd(pairs[0], request, extracted);
    if first.None? {
      UndefinedConjunction(pairs, 0, request);
      return None;
    }
    ghost var seen := AllComparisonDimensions(Comparisons(pairs[0]));
    OneMoreConjunction([], pairs[0], request, false, []);
    assert [] + [pairs[0]] == pairs[..1] && [] + seen == seen;
    var result := first.value.flag;
    for i := 1 to |pairs|
      invariant Disjoined(pairs[..i], request, result, seen)
      invariant extracted.dimensions == start + seen
    {
      var next := EvaluateAnd(pairs[i], request, extracted);
      if next.None? {
        UndefinedConjunction(pairs, i, request);
        return None;
      }
      OneMoreConjunction(pairs[..i], pairs[i], request, result, seen);
      TakeOneMore(pairs, i);
      Associative(start, seen, AllComparisonDimensions(Comparisons(pairs[i])));
      seen := seen + AllComparisonDimensions(Comparisons(pairs[i]));
      result := result || next.value.flag;
    }
    assert pairs[..|pairs|] == pairs;
    return Some(Boolean(result));
  }

  // ---------- The same, without recursion ----------

  lemma {:induction false} AllMeansEach(comparisons: seq<Comparison>, request: Request)
    ensures AllDefined(comparisons, request) <==> forall c :: c in comparisons ==> Defined(c, request)
    ensures AllTrue(comparisons, request) <==> forall c :: c in comparisons ==> True(c, request)
  {
    if comparisons != [] {
      var init, last := comparisons[..|comparisons| - 1], comparisons[|comparisons| - 1];
      assert comparisons == init + [last];
      AllMeansEach(init, request);
    }
  }

  lemma {:induction false} SomeMeansOne(conjunctions: seq<Conjunction>, request: Request)
    ensures EachDefined(conjunctions, request)
       <==> forall k :: k in conjunctions ==> AllDefined(Comparisons(k), request)
    ensures SomeTrue(conjunctions, request)
       <==> exists k :: k in conjunctions && AllTrue(Comparisons(k), request)
  {
    if conjunctions != [] {
      var init, last := conjunctions[..|conjunctions| - 1], conjunctions[|conjunctions| - 1];
      assert conjunctions == init + [last];
      SomeMeansOne(init, request);
    }
  }

  /** The conjunction is one of the expression, and the comparison one of that. */
  predicate Within(expression: Expression, k: Conjunction, c: Comparison) {
    (k == expression.first || k in expression.rest) && (c == k.first || c in k.rest)
  }

  /** All comparisons of some conjunction are true. */
  ghost predicate SomeAllTrue(expression: Expression, request: Request) {
    exists k :: (k == expression.first || k in expression.rest) &&
      True(k.first, request) && forall c :: c in k.rest ==> True(c, request)
  }

  lemma ConjunctionMeaning(k: Conjunction, request: Request)
    ensures AllDefined(Comparisons(k), request) <==> forall c :: c == k.first || c in k.rest ==> Defined(c, request)
    ensures AllTrue(Comparisons(k), request) <==>
      True(k.first, request) && forall c :: c in k.rest ==> True(c, request)
  {
    AllMeansEach(Comparisons(k), request);
    assert forall c :: c in Comparisons(k) <==> c == k.first || c in k.rest;
  }

  lemma DefinedMeaning(expression: Expression, request: Request)
    ensures ExpressionDefined(expression, request) <==>
      forall k, c :: Within(expression, k, c) ==> Defined(c, request)
  {
    SomeMeansOne(Conjunctions(expression), request);
    if ExpressionDefined(expression, request) {
      forall k, c | Within(expression, k, c) ensures Defined(c, request) {
        assert k in Conjunctions(expression);
        ConjunctionMeaning(k, request);
      }
    }
    if forall k, c :: Within(expression, k, c) ==> Defined(c, request) {
      forall k | k in Conjunctions(expression) ensures AllDefined(Comparisons(k), request) {
        assert k == expression.first || k in expression.rest;
        ConjunctionMeaning(k, request);
        forall c | c == k.first || c in k.rest ensures Defined(c, request) {
          assert Within(expression, k, c);
        }
      }
    }
  }

  lemma TrueMeaning(expression: Expression, request: Request)
    ensures ExpressionTrue(expression, request) <==> SomeAllTrue(expression, request)
  {
    SomeMeansOne(Conjunctions(expression), request);
    if ExpressionTrue(expression, request) {
      var k :| k in Conjunctions(expression) && AllTrue(Comparisons(k), request);
      ConjunctionMeaning(k, request);
      assert k == expression.first || k in expression.rest;
    }
    if SomeAllTrue(expression, request) {
      var k :| (k == expression.first || k in expression.rest) &&
        True(k.first, request) && forall c :: c in k.rest ==> True(c, request);
      ConjunctionMeaning(k, request);
      assert k in Conjunctions(expression);
    }
  }

  /** An expression has a value when every comparison in it can be made, even one whose outcome
      could not matter; and it is true when all comparisons of some conjunction are. */
  lemma ExpressionMeaning(expression: Expression, request: Request)
    ensures ExpressionDefined(expression, request) <==>
      forall k, c :: Within(expression, k, c) ==> Defined(c, request)
    ensures ExpressionTrue(expression, request) <==> SomeAllTrue(expression, request)
  {
    DefinedMeaning(expression, request);
    TrueMeaning(expression, request);
  }
}
