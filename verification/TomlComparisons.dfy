/** What the comparisons of context expressions mean, value by value. */
module TomlComparisons {
  import opened Sequences
  import opened Strings
  import opened Wrappers
  import opened TomlExpressions

  // ---------- Numbers and strings ----------

  lemma IntegersCompare(a: Int64, b: Int64, read: FloatReading)
    ensures Compared(Integer(a), Less, Integer(b), read) == Some(a < b)
    ensures Compared(Integer(a), Greater, Integer(b), read) == Some(a > b)
    ensures Compared(Integer(a), Equal, Integer(b), read) == Some(a == b)
    ensures Compared(Integer(a), Different, Integer(b), read) == Some(a != b)
    ensures Compared(Integer(a), AtLeast, Integer(b), read) == Some(a >= b)
    ensures Compared(Integer(a), AtMost, Integer(b), read) == Some(a <= b)
  {
  }

  /** Strings are compared from their first character on. */
  lemma {:induction false} StringOrder(a: string, b: string)
    ensures OrderStrings(a, b) == if a == b then Same else if Precedes(a, b) then Below else Above
    ensures !(Precedes(a, b) && Precedes(b, a)) && (Precedes(a, b) || Precedes(b, a) <==> a != b)
  {
    if a != "" && b != "" {
      if a[0] == b[0] {
        PrecedesNext(a, b);
        PrecedesNext(b, a);
        StringOrder(a[1..], b[1..]);
        assert a == [a[0]] + a[1..] && b == [b[0]] + b[1..];
      } else {
        PrecedesAtOnce(a, b);
        PrecedesAtOnce(b, a);
      }
    }
  }

  lemma StringsCompare(a: string, b: string, read: FloatReading)
    ensures Compared(String(a), Less, String(b), read) == Some(Precedes(a, b))
    ensures Compared(String(a), Greater, String(b), read) == Some(Precedes(b, a))
    ensures Compared(String(a), Equal, String(b), read) == Some(a == b)
    ensures Compared(String(a), Different, String(b), read) == Some(a != b)
    ensures Compared(String(a), AtLeast, String(b), read) == Some(a == b || Precedes(b, a))
    ensures Compared(String(a), AtMost, String(b), read) == Some(a == b || Precedes(a, b))
  {
    StringOrder(a, b);
  }

  /** Between the infinities the order is that of the numbers. */
  ghost predicate LowerFloat(a: Float, b: Float) {
    || (a.NegativeInfinity? && (b.Finite? || b.PositiveInfinity?))
    || (a.Finite? && (b.PositiveInfinity? || (b.Finite? && a.value < b.value)))
  }

  lemma FloatsCompare(a: Float, b: Float, read: FloatReading)
    requires a != NaN && b != NaN
    ensures Compared(Value.Float(a), Less, Value.Float(b), read) == Some(LowerFloat(a, b))
    ensures Compared(Value.Float(a), Greater, Value.Float(b), read) == Some(LowerFloat(b, a))
    ensures Compared(Value.Float(a), Equal, Value.Float(b), read) == Some(a == b)
    ensures Compared(Value.Float(a), Different, Value.Float(b), read) == Some(a != b)
    ensures Compared(Value.Float(a), AtLeast, Value.Float(b), read) == Some(a == b || LowerFloat(b, a))
    ensures Compared(Value.Float(a), AtMost, Value.Float(b), read) == Some(a == b || LowerFloat(a, b))
  {
  }

  /** What is not a number is different from everything, itself included, and nothing else. */
  lemma NaNCompares(a: Float, operator: Operator, b: Float, read: FloatReading)
    requires a == NaN || b == NaN
    ensures Compared(Value.Float(a), operator, Value.Float(b), read) == Some(operator == Different)
  {
  }

  // ---------- Strings against numbers ----------

  function Digit(d: nat): char
    requires d < 10
  {
    '0' + d as char
  }

  /** The decimal digits of a number, without leading zeros. */
  function Decimal(n: nat): string {
    if n < 10 then [Digit(n)] else Decimal(n / 10) + [Digit(n % 10)]
  }

  function Zeros(count: nat): string {
    seq(count, _ => '0')
  }

  lemma DigitReads(d: nat)
    requires d < 10
    ensures '0' <= Digit(d) <= '9' && Digit(d) as nat - '0' as nat == d
  {
  }

  lemma ParseSnoc(init: string, d: nat)
    requires d < 10 && init != "" && ParseDigits(init).Some?
    ensures ParseDigits(init + [Digit(d)]) == Some(ParseDigits(init).value * 10 + d)
  {
    SnocParts(init, Digit(d));
    DigitReads(d);
  }

  lemma {:induction false} ZerosRead(count: nat)
    requires count > 0
    ensures ParseDigits(Zeros(count)) == Some(0)
  {
    if count > 1 {
      ZerosRead(count - 1);
      assert Zeros(count) == Zeros(count - 1) + [Digit(0)];
      ParseSnoc(Zeros(count - 1), 0);
    }
  }

  lemma {:induction false} DecimalReads(zeros: nat, n: nat)
    ensures ParseDigits(Zeros(zeros) + Decimal(n)) == Some(n)
  {
    if n < 10 {
      DigitReads(n);
      if zeros > 0 {
        ZerosRead(zeros);
        ParseSnoc(Zeros(zeros), n);
      } else {
        assert Zeros(zeros) + Decimal(n) == [Digit(n)];
      }
    } else {
      DecimalReads(zeros, n / 10);
      ParseSnoc(Zeros(zeros) + Decimal(n / 10), n % 10);
      assert Zeros(zeros) + Decimal(n) == Zeros(zeros) + Decimal(n / 10) + [Digit(n % 10)];
    }
  }

  /** What can be read as digits is a decimal number behind some zeros. */
  lemma {:induction false} ReadIsDecimal(digits: string) returns (zeros: nat)
    requires ParseDigits(digits).Some?
    ensures digits == Zeros(zeros) + Decimal(ParseDigits(digits).value)
  {
    var n, init, last := |digits| - 1, digits[..|digits| - 1], digits[|digits| - 1];
    var d := last as nat - '0' as nat;
    assert digits == init + [Digit(d)];
    if n == 0 {
      zeros := 0;
      assert digits == Decimal(d);
    } else {
      zeros := ReadIsDecimal(init);
      var value := ParseDigits(init).value;
      if value == 0 {
        zeros := zeros + 1;
        assert Zeros(zeros) == Zeros(zeros - 1) + Decimal(0);
        assert Decimal(d) == [Digit(d)];
      } else {
        assert (value * 10 + d) / 10 == value && (value * 10 + d) % 10 == d;
        assert Zeros(zeros) + Decimal(value * 10 + d) == Zeros(zeros) + Decimal(value) + [Digit(d)];
      }
    }
  }

  /** An integer as it is written: a sign, which may be missing where it is not negative, zeros,
      and the digits of its magnitude. */
  ghost predicate Writes(s: string, n: int) {
    exists zeros: nat ::
      || (n >= 0 && (s == Zeros(zeros) + Decimal(n) || s == "+" + (Zeros(zeros) + Decimal(n))))
      || (n <= 0 && s == "-" + (Zeros(zeros) + Decimal(-n)))
  }

  predicate Fits(n: int) {
    -0x8000_0000_0000_0000 <= n < 0x8000_0000_0000_0000
  }

  lemma {:induction false} DecimalStarts(n: nat)
    ensures Decimal(n) != "" && '0' <= Decimal(n)[0] <= '9'
  {
    if n < 10 {
      DigitReads(n);
    } else {
      DecimalStarts(n / 10);
    }
  }

  lemma SignedReads(s: string, zeros: nat, n: int)
    requires n >= 0 ==>
      || s == Zeros(zeros) + Decimal(n) || s == "+" + (Zeros(zeros) + Decimal(n))
      || (n == 0 && s == "-" + (Zeros(zeros) + Decimal(0)))
    requires n < 0 ==> s == "-" + (Zeros(zeros) + Decimal(-n))
    ensures AsInteger(s) == if Fits(n) then n else 0
  {
    var magnitude := if n >= 0 then n else -n;
    var digits := Zeros(zeros) + Decimal(magnitude);
    DecimalReads(zeros, magnitude);
    DecimalStarts(magnitude);
    assert digits[0] == if zeros > 0 then '0' else Decimal(magnitude)[0];
    assert ("+" + digits)[1..] == digits && ("-" + digits)[1..] == digits;
  }

  /** A string that writes an integer counts as that integer, or as zero where it does not fit;
      any other string counts as zero. */
  lemma StringCountsAs(s: string, n: int)
    ensures Writes(s, n) ==> AsInteger(s) == if Fits(n) then n else 0
    ensures (forall m :: !Writes(s, m)) ==> AsInteger(s) == 0
  {
    if Writes(s, n) {
      var zeros: nat :|
        || (n >= 0 && (s == Zeros(zeros) + Decimal(n) || s == "+" + (Zeros(zeros) + Decimal(n))))
        || (n <= 0 && s == "-" + (Zeros(zeros) + Decimal(-n)));
      SignedReads(s, zeros, n);
    }
    var signed := s != "" && (s[0] == '-' || s[0] == '+');
    var digits := if signed then s[1..] else s;
    if ParseDigits(digits).Some? {
      var zeros := ReadIsDecimal(digits);
      var magnitude: int := ParseDigits(digits).value;
      assert signed ==> s == [s[0]] + digits;
      assert Writes(s, if signed && s[0] == '-' then -magnitude else magnitude);
    }
  }

  lemma StringAgainstInteger(s: string, n: int, operator: Operator, b: Int64, read: FloatReading)
    ensures Writes(s, n) && Fits(n) ==>
      Compared(String(s), operator, Integer(b), read) == Compared(Integer(n), operator, Integer(b), read)
    ensures Writes(s, n) && !Fits(n) ==>
      Compared(String(s), operator, Integer(b), read) == Compared(Integer(0), operator, Integer(b), read)
    ensures (forall m :: !Writes(s, m)) ==>
      Compared(String(s), operator, Integer(b), read) == Compared(Integer(0), operator, Integer(b), read)
  {
    StringCountsAs(s, n);
  }

  lemma StringAgainstFloat(s: string, operator: Operator, b: Float, read: FloatReading)
    ensures Compared(String(s), operator, Value.Float(b), read)
         == Compared(Value.Float(if read(s).None? then Finite(0.0) else read(s).value), operator, Value.Float(b), read)
  {
  }

  // ---------- Everything else ----------

  /** A boolean on the left decides alone; beside the pairs above, nothing else has an outcome. */
  lemma OtherComparisons(left: Value, operator: Operator, right: Value, read: FloatReading)
    ensures left.Boolean? ==> Compared(left, operator, right, read) == Some(left.flag)
    ensures Compared(left, operator, right, read).Some? <==>
      || left.Boolean?
      || (left.Integer? && right.Integer?) || (left.Float? && right.Float?)
      || (left.String? && (right.String? || right.Integer? || right.Float?))
  {
  }

  // ---------- Terms ----------

  /** The value that a literal writes. */
  ghost predicate Literal(term: Term, value: Value) {
    || (value.Boolean? && term == BoolLiteral(value.flag))
    || (value.String? && term == StringLiteral(value.chars))
    || (value.Float? && term == FloatLiteral(value.float))
    || (value.Integer? && value.number >= 0 && term == IntegerLiteral(value.number))
  }

  /** A given dimension is compared with its value; one that is not given makes the comparison
      false, but not a panic, whatever the operator. */
  lemma DimensionAgainstLiteral(name: string, operator: Operator, literal: Term, value: Value, request: Request)
    requires Literal(literal, value)
    ensures var comparison := Comparison(Dimension(name), operator, literal);
            && (name in request.given ==>
                  && (Defined(comparison, request) <==>
                        Compared(request.given[name], operator, value, request.read).Some?)
                  && (True(comparison, request) <==>
                        Compared(request.given[name], operator, value, request.read) == Some(true)))
            && (name !in request.given ==> Defined(comparison, request) && !True(comparison, request))
  {
  }

  /** A literal on the left, and a dimension or a literal on the right; a dimension that is not
      given counts as false there, which only a boolean can be compared with. */
  lemma LiteralOnTheLeft(literal: Term, value: Value, operator: Operator, right: Term, other: Value, request: Request)
    requires Literal(literal, value)
    requires
      || Literal(right, other)
      || (right.Dimension? && right.name in request.given && request.given[right.name] == other)
      || (right.Dimension? && right.name !in request.given && other == Boolean(false))
    ensures var comparison := Comparison(literal, operator, right);
            && (Defined(comparison, request) <==> Compared(value, operator, other, request.read).Some?)
            && (True(comparison, request) <==> Compared(value, operator, other, request.read) == Some(true))
  {
  }

  lemma TwoDimensions(left: string, operator: Operator, right: string, request: Request)
    requires left in request.given
    ensures var comparison := Comparison(Dimension(left), operator, Dimension(right));
            var other := if right in request.given then request.given[right] else Boolean(false);
            && (Defined(comparison, request) <==>
                  Compared(request.given[left], operator, other, request.read).Some?)
            && (True(comparison, request) <==>
                  Compared(request.given[left], operator, other, request.read) == Some(true))
  {
  }

  /** An integer literal that does not fit is a panic on either side. */
  lemma TooLarge(magnitude: nat, operator: Operator, other: Term, request: Request)
    requires magnitude >= 0x8000_0000_0000_0000
    ensures !Defined(Comparison(IntegerLiteral(magnitude), operator, other), request)
    ensures !Defined(Comparison(other, operator, IntegerLiteral(magnitude)), request)
  {
  }

  // ---------- The dimensions of an expression ----------

  ghost function Single(comparison: Comparison): Expression {
    Expression(Conjunction(comparison, []), [])
  }

  /** The dimensions of one comparison are those of its left and of its right side. */
  lemma SingleDimensions(comparison: Comparison)
    ensures Dimensions(Single(comparison))
         == (if comparison.left.Dimension? then [comparison.left.name] else [])
            + (if comparison.right.Dimension? then [comparison.right.name] else [])
  {
    ConjunctionDimensions(Conjunction(comparison, []));
    assert Comparisons(Conjunction(comparison, [])) == [] + [comparison];
    SnocParts([], comparison);
    assert AllComparisonDimensions([] + [comparison]) == [] + ComparisonDimensions(comparison);
  }

  lemma ConjunctionDimensions(conjunction: Conjunction)
    ensures Dimensions(Expression(conjunction, [])) == AllComparisonDimensions(Comparisons(conjunction))
  {
    assert Conjunctions(Expression(conjunction, [])) == [] + [conjunction];
    SnocParts([], conjunction);
    assert AllConjunctionDimensions([] + [conjunction]) == [] + AllComparisonDimensions(Comparisons(conjunction));
  }

  /** Joining one more comparison by "and" adds its dimensions at the end. */
  lemma AndAddsDimensions(conjunction: Conjunction, next: Comparison)
    ensures var longer := Conjunction(conjunction.first, conjunction.rest + [next]);
            Dimensions(Expression(longer, []))
              == Dimensions(Expression(conjunction, [])) + Dimensions(Single(next))
  {
    var longer := Conjunction(conjunction.first, conjunction.rest + [next]);
    ConjunctionDimensions(conjunction);
    ConjunctionDimensions(longer);
    SingleDimensions(next);
    assert Comparisons(longer) == Comparisons(conjunction) + [next];
    SnocParts(Comparisons(conjunction), next);
  }

  /** Joining one more conjunction by "or" does too. */
  lemma OrAddsDimensions(expression: Expression, next: Conjunction)
    ensures Dimensions(Expression(expression.first, expression.rest + [next]))
         == Dimensions(expression) + Dimensions(Expression(next, []))
  {
    var longer := Expression(expression.first, expression.rest + [next]);
    ConjunctionDimensions(next);
    assert Conjunctions(longer) == Conjunctions(expression) + [next];
    SnocParts(Conjunctions(expression), next);
  }

  /** The comparison has the dimension on a side. */
  predicate Mentions(comparison: Comparison, name: string) {
    comparison.left == Dimension(name) || comparison.right == Dimension(name)
  }

  lemma TermsMention(comparison: Comparison, name: string)
    ensures name in ComparisonDimensions(comparison) <==> Mentions(comparison, name)
  {
    assert name in TermDimensions(comparison.left) <==> comparison.left == Dimension(name);
    assert name in TermDimensions(comparison.right) <==> comparison.right == Dimension(name);
  }

  lemma {:induction false} ComparisonsMention(comparisons: seq<Comparison>, name: string)
    ensures name in AllComparisonDimensions(comparisons) <==> exists c :: c in comparisons && Mentions(c, name)
  {
    if comparisons != [] {
      var init, last := comparisons[..|comparisons| - 1], comparisons[|comparisons| - 1];
      assert comparisons == init + [last];
      ComparisonsMention(init, name);
      TermsMention(last, name);
    }
  }

  lemma {:induction false} ConjunctionsMention(conjunctions: seq<Conjunction>, name: string)
    ensures name in AllConjunctionDimensions(conjunctions) <==>
      exists k, c :: k in conjunctions && c in Comparisons(k) && Mentions(c, name)
  {
    if conjunctions != [] {
      var init, last := conjunctions[..|conjunctions| - 1], conjunctions[|conjunctions| - 1];
      assert conjunctions == init + [last];
      ConjunctionsMention(init, name);
      ComparisonsMention(Comparisons(last), name);
    }
  }

  /** Some comparison of the expression has the dimension on a side. */
  ghost predicate MentionedIn(expression: Expression, name: string) {
    exists k, c :: Within(expression, k, c) && Mentions(c, name)
  }

  /** The dimensions of an expression are those that some comparison has on a side. */
  lemma DimensionsAreMentioned(expression: Expression, name: string)
    ensures name in Dimensions(expression) <==> MentionedIn(expression, name)
  {
    ConjunctionsMention(Conjunctions(expression), name);
    forall k, c ensures k in Conjunctions(expression) && c in Comparisons(k) <==> Within(expression, k, c) {
    }
  }
}
