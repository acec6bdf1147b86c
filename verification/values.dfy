/**
 * Runtime values of the interpreter (Pengo/src/ast/Value.h) and the value operations of
 * Pengo/src/Interpreter.cpp: toString, the binary operators and the literal conversion.
 *
 * A value is a type tag with a variant payload.  The payload of a default-constructed
 * value (the Null of `return {}` and of `{ValueType::Null}`) is the int 0, so reading it
 * as an int succeeds and yields 0.  A function value holds a reference into the
 * interpreter's function table; the model refers to the table entry by its name.  Float
 * values are not modelled.
 */
module Values {
  import opened Wrappers
  import opened Tokens

  /** The C++ `int`. */
  type Int32 = i: int | -0x8000_0000 <= i < 0x8000_0000

  predicate InRange(i: int) {
    -0x8000_0000 <= i < 0x8000_0000
  }

  datatype Value =
    | Integer(i: Int32)
    | Str(s: string)
    | Bool(b: bool)
    | Fn(name: string)
    | Null

  /** Why evaluation stops.  The source exits, throws, pauses or has undefined behaviour in
      each of these situations; the model ends the run with the matching error. */
  datatype RuntimeError =
    | UndefinedVariable(name: string, line: int, pos: int)
    | ArityMismatch(expected: nat, given: nat)
    | NotCallable
    | OperatorMisuse(op: string, line: int, pos: int)
    | BadVariant
    | Unprintable
    | Overflow
    | DivisionByZero
    | InvalidNumber
    | NumberOutOfRange
    | MissingArgument
    | Unmodelled(builtin: string)
    | OutOfFuel

  /** `std::get<int>` on a value's payload: the Null payload is the int 0, every other
      non-integer payload throws `bad_variant_access`. */
  function IntPayload(v: Value): (r: Result<Int32, RuntimeError>)
    ensures r.Ok? <==> v.Integer? || v.Null?
    ensures v.Integer? ==> r == Ok(v.i)
    ensures v.Null? ==> r == Ok(0)
  {
    match v
    case Integer(i) => Ok(i)
    case Null => Ok(0)
    case _ => Err(BadVariant)
  }

  // ---- decimal text ----

  predicate IsDigit(c: char) {
    '0' <= c <= '9'
  }

  function DigitChar(d: nat): (c: char)
    requires d < 10
    ensures IsDigit(c) && c as int - '0' as int == d
  {
    ('0' as int + d) as char
  }

  /** The decimal digits of `n`, without leading zeros. */
  function Digits(n: nat): (s: string)
    ensures |s| > 0
    ensures forall k :: 0 <= k < |s| ==> IsDigit(s[k])
    ensures s[0] == '0' ==> n == 0
  {
    if n < 10 then [DigitChar(n)] else Digits(n / 10) + [DigitChar(n % 10)]
  }

  /** The number a run of decimal digits denotes. */
  function DigitsValue(s: string): nat
    requires forall k :: 0 <= k < |s| ==> IsDigit(s[k])
  {
    if s == [] then 0
    else
      assert IsDigit(s[|s| - 1]);
      DigitsValue(s[..|s| - 1]) * 10 + (s[|s| - 1] as int - '0' as int)
  }

  lemma {:induction false} DigitsRoundTrip(n: nat)
    ensures DigitsValue(Digits(n)) == n
  {
    if n >= 10 {
      var s := Digits(n);
      assert s[..|s| - 1] == Digits(n / 10);
      DigitsRoundTrip(n / 10);
    }
  }

  /** `std::to_string` of an int. */
  function Decimal(i: int): (s: string)
    ensures |s| > 0
    ensures i < 0 <==> s[0] == '-'
    ensures forall k :: 0 < k < |s| ==> IsDigit(s[k])
  {
    if i < 0 then "-" + Digits(-i) else Digits(i)
  }

  /** `toString`: a String is itself, an Integer becomes its decimal text; the source has
      no case for the other tags and its result is undefined there. */
  function ToString(v: Value): (r: Result<string, RuntimeError>)
    ensures r.Ok? <==> v.Str? || v.Integer?
    ensures v.Str? ==> r == Ok(v.s)
    ensures v.Integer? ==> r == Ok(Decimal(v.i))
  {
    match v
    case Str(s) => Ok(s)
    case Integer(i) => Ok(Decimal(i))
    case _ => Err(Unprintable)
  }

  /** toString is idempotent on the tags it handles. */
  lemma ToStringIdempotent(v: Value)
    requires v.Str? || v.Integer?
    ensures ToString(Str(ToString(v).value)) == ToString(v)
  {
  }

  // ---- std::stoi ----

  /** The characters `isspace` accepts in the C locale. */
  predicate IsSpace(c: char) {
    c == ' ' || c == '\t' || c == '\n' || c == '\U{B}' || c == '\U{C}' || c == '\r'
  }

  function SkipSpace(s: string, i: nat): (j: nat)
    requires i <= |s|
    ensures i <= j <= |s|
    ensures forall k :: i <= k < j ==> IsSpace(s[k])
    ensures j == |s| || !IsSpace(s[j])
    decreases |s| - i
  {
    if i < |s| && IsSpace(s[i]) then SkipSpace(s, i + 1) else i
  }

  function DigitEnd(s: string, i: nat): (j: nat)
    requires i <= |s|
    ensures i <= j <= |s|
    ensures forall k :: i <= k < j ==> IsDigit(s[k])
    ensures j == |s| || !IsDigit(s[j])
    decreases |s| - i
  {
    if i < |s| && IsDigit(s[i]) then DigitEnd(s, i + 1) else i
  }

  /**
   * `std::stoi` in base 10: leading white space, an optional sign, then the longest run of
   * digits; the rest of the text is ignored.  No digits throws `invalid_argument`, a value
   * outside `int` throws `out_of_range`.
   */
  function StoI(s: string): (r: Result<Int32, RuntimeError>)
    ensures r == Err(InvalidNumber) <==>
      var b := SkipSpace(s, 0);
      var d := if b < |s| && (s[b] == '-' || s[b] == '+') then b + 1 else b;
      d == |s| || !IsDigit(s[d])
  {
    var b := SkipSpace(s, 0);
    var negative := b < |s| && s[b] == '-';
    var d := if b < |s| && (s[b] == '-' || s[b] == '+') then b + 1 else b;
    var e := DigitEnd(s, d);
    if e == d then Err(InvalidNumber)
    else
      var m := DigitsValue(s[d..e]);
      var v: int := if negative then -(m as int) else m;
      if InRange(v) then Ok(v) else Err(NumberOutOfRange)
  }

  /** stoi reads back what to_string writes. */
  lemma {:induction false} StoIDecimal(i: Int32)
    ensures StoI(Decimal(i)) == Ok(i)
  {
    var s := Decimal(i);
    var n := Abs(i);
    var d := if i < 0 then 1 else 0;
    assert s[d..] == Digits(n);
    assert SkipSpace(s, 0) == 0;
    assert DigitEnd(s, d) == |s| by {
      DigitEndToEnd(s, d);
    }
    assert s[d..|s|] == Digits(n);
    DigitsRoundTrip(n);
  }

  lemma {:induction false} DigitEndToEnd(s: string, i: nat)
    requires i <= |s|
    requires forall k :: i <= k < |s| ==> IsDigit(s[k])
    ensures DigitEnd(s, i) == |s|
    decreases |s| - i
  {
    if i < |s| {
      DigitEndToEnd(s, i + 1);
    }
  }

  // ---- integer arithmetic ----

  function Abs(i: int): nat {
    if i < 0 then -i else i
  }

  /** The remainder `a - b * q` is smaller than `b` in magnitude and has the sign of `a`. */
  predicate TruncRemainder(a: int, b: int, q: int) {
    var rem := a - b * q; Abs(rem) < Abs(b) && (a >= 0 ==> rem >= 0) && (a <= 0 ==> rem <= 0)
  }

  /** C++ integer division: the quotient is truncated toward zero, so the remainder has
      the sign of the dividend and is smaller than the divisor in magnitude. */
  function TruncDiv(a: int, b: int): (q: int)
    requires b != 0
    ensures TruncRemainder(a, b, q)
  {
    var m := Abs(a) / Abs(b);
    TruncDivStep(Abs(a), Abs(b));
    TruncDivSigns(a, b, m);
    if (a < 0) == (b < 0) then m else -m
  }

  lemma TruncDivSigns(a: int, b: int, m: int)
    requires b != 0 && 0 <= Abs(a) - Abs(b) * m < Abs(b)
    ensures TruncRemainder(a, b, if (a < 0) == (b < 0) then m else -m)
  {
    var p := Abs(b) * m;
    var q := if (a < 0) == (b < 0) then m else -m;
    assert b * q == (if a < 0 then -p else p) by {
      if b > 0 && a >= 0 {
      } else if b > 0 {
        MulNeg(b, m);
      } else if a >= 0 {
        MulNeg(Abs(b), m);
        MulNeg(b, m);
      } else {
        MulNeg(Abs(b), m);
      }
    }
    var rem := a - b * q;
    assert rem == (if a < 0 then p - Abs(a) else Abs(a) - p);
  }

  lemma MulNeg(x: int, y: int)
    ensures (-x) * y == -(x * y) && x * (-y) == -(x * y)
  {
  }

  lemma TruncDivStep(x: nat, y: nat)
    requires y > 0
    ensures 0 <= x - y * (x / y) < y
  {
  }

  /** The result is the same whatever quotient is chosen: the division identity fixes it. */
  lemma {:induction false} TruncDivUnique(a: int, b: int, q: int)
    requires b != 0 && TruncRemainder(a, b, q)
    ensures q == TruncDiv(a, b)
  {
    var p := TruncDiv(a, b);
    var r1, r2 := a - b * q, a - b * p;
    assert b * (p - q) == r1 - r2 by {
      assert b * (p - q) == b * p - b * q;
    }
    assert Abs(r1 - r2) < Abs(b);
    if p != q {
      AbsProduct(b, p - q);
    }
  }

  lemma AbsProduct(b: int, k: int)
    requires k != 0
    ensures Abs(b * k) >= Abs(b)
  {
    assert Abs(b * k) == Abs(b) * Abs(k) by {
      if b < 0 && k < 0 {
        assert b * k == (-b) * (-k);
      } else if b < 0 {
        assert -(b * k) == (-b) * k;
      } else if k < 0 {
        assert -(b * k) == b * (-k);
      }
    }
    MulGrows(Abs(b), Abs(k));
  }

  lemma MulGrows(x: nat, y: nat)
    requires y >= 1
    ensures x * y >= x
  {
    assert x * y == x * (y - 1) + x;
  }

  /** A 32-bit result, or the overflow the source leaves undefined. */
  function Checked(x: int): (r: Result<Value, RuntimeError>)
    ensures r.Ok? <==> InRange(x)
    ensures r.Ok? ==> r.value == Integer(x)
    ensures r.Err? ==> r.error == Overflow
  {
    if InRange(x) then Ok(Integer(x)) else Err(Overflow)
  }

  /**
   * visitBinary after both operands are evaluated.  `+` concatenates the text of both
   * operands when either is a String, and otherwise adds the int payloads.  `-`, `*` and
   * `/` need two Integers; an operator the switch does not list leaves the Integer 0.  Any
   * other operand pair reports the operator at its position.
   */
  function BinaryOp(op: Token, l: Value, r: Value): (res: Result<Value, RuntimeError>)
    ensures op.kind == Plus && (l.Str? || r.Str?) ==>
      (res.Ok? <==> ToString(l).Ok? && ToString(r).Ok?) &&
      (res.Ok? ==> res.value == Str(ToString(l).value + ToString(r).value))
    ensures op.kind == Plus && !l.Str? && !r.Str? ==>
      (res.Ok? <==> (l.Integer? || l.Null?) && (r.Integer? || r.Null?) && InRange(IntPayload(l).value + IntPayload(r).value)) &&
      (res.Ok? ==> res.value == Integer(IntPayload(l).value + IntPayload(r).value))
    ensures op.kind != Plus && !(l.Integer? && r.Integer?) ==>
      res == Err(OperatorMisuse(op.text, op.line, op.pos))
    ensures op.kind == Minus && l.Integer? && r.Integer? ==> res == Checked(l.i - r.i)
    ensures op.kind == Asterisk && l.Integer? && r.Integer? ==> res == Checked(l.i * r.i)
    ensures op.kind == Slash && l.Integer? && r.Integer? ==>
      (r.i == 0 ==> res == Err(DivisionByZero)) &&
      (r.i != 0 ==> res == Checked(TruncDiv(l.i, r.i))) &&
      (res.Ok? ==> res.value.Integer? && TruncRemainder(l.i, r.i, res.value.i))
    ensures op.kind !in {Plus, Minus, Asterisk, Slash} && l.Integer? && r.Integer? ==> res == Ok(Integer(0))
    ensures res.Ok? ==> res.value.Str? || res.value.Integer?
  {
    if op.kind == Plus then
      if l.Str? || r.Str? then
        var a :- ToString(l);
        var b :- ToString(r);
        Ok(Str(a + b))
      else
        var a :- IntPayload(l);
        var b :- IntPayload(r);
        Checked(a + b)
    else if l.Integer? && r.Integer? then
      if op.kind == Minus then Checked(l.i - r.i)
      else if op.kind == Asterisk then Checked(l.i * r.i)
      else if op.kind == Slash then
        if r.i == 0 then Err(DivisionByZero) else Checked(TruncDiv(l.i, r.i))
      else Ok(Integer(0))
    else
      Err(OperatorMisuse(op.text, op.line, op.pos))
  }

  /** String `+` is associative when the middle operand is a String or both outer operands
      are: (a + b) + c and a + (b + c) give the same text. */
  lemma {:induction false} ConcatAssociates(op: Token, a: Value, b: Value, c: Value)
    requires op.kind == Plus
    requires b.Str? || (a.Str? && c.Str?)
    requires ToString(a).Ok? && ToString(b).Ok? && ToString(c).Ok?
    ensures BinaryOp(op, a, b).Ok? && BinaryOp(op, b, c).Ok?
    ensures BinaryOp(op, BinaryOp(op, a, b).value, c) == BinaryOp(op, a, BinaryOp(op, b, c).value)
  {
    var x, y, z := ToString(a).value, ToString(b).value, ToString(c).value;
    assert (x + y) + z == x + (y + z);
  }

  /** Otherwise `+` is not associative: ("n" + 1) + 2 is "n12" but "n" + (1 + 2) is "n3". */
  lemma MixedPlusIsNotAssociative(op: Token)
    requires op.kind == Plus
    ensures BinaryOp(op, BinaryOp(op, Str("n"), Integer(1)).value, Integer(2)) == Ok(Str("n12"))
    ensures BinaryOp(op, Str("n"), BinaryOp(op, Integer(1), Integer(2)).value) == Ok(Str("n3"))
  {
    assert DigitChar(1) == '1' && DigitChar(2) == '2' && DigitChar(3) == '3';
    assert Decimal(1) == "1" && Decimal(2) == "2" && Decimal(3) == "3";
    assert ToString(Integer(1)) == Ok("1");
    assert "n" + "1" == "n1" && "n1" + "2" == "n12" && "n" + "3" == "n3";
    assert BinaryOp(op, Str("n"), Integer(1)) == Ok(Str("n1"));
    assert BinaryOp(op, Integer(1), Integer(2)) == Ok(Integer(3));
  }

  /** Where the source's `/` parts from Dafny's: for a positive divisor, truncation toward
      zero agrees with Dafny's floor division unless the dividend is negative and not a
      multiple of the divisor, where it gives one more. */
  lemma {:induction false} TruncDivVsFloor(a: int, b: int)
    requires b > 0
    ensures a >= 0 || a % b == 0 ==> TruncDiv(a, b) == a / b
    ensures a < 0 && a % b != 0 ==> TruncDiv(a, b) == a / b + 1
  {
    var q := if a >= 0 || a % b == 0 then a / b else a / b + 1;
    assert a == b * (a / b) + a % b;
    if a < 0 && a % b != 0 {
      assert a - b * q == a % b - b by {
        assert b * q == b * (a / b) + b;
      }
    }
    TruncDivUnique(a, b, q);
  }

  /** `-7 / 2` is `-3` in Pengo, where Dafny's `/` gives `-4`. */
  lemma NegativeDivision(op: Token)
    requires op.kind == Slash
    ensures BinaryOp(op, Integer(-7), Integer(2)) == Ok(Integer(-3))
    ensures -7 / 2 == -4
  {
    TruncDivVsFloor(-7, 2);
  }

  /**
   * visitLiteral: a Number token is read with `stoi`, a String token is its own text, any
   * other token is Null.
   */
  function LiteralValue(t: Token): (r: Result<Value, RuntimeError>)
    ensures t.kind == Number ==> (r.Ok? <==> StoI(t.text).Ok?) && (r.Ok? ==> r.value == Integer(StoI(t.text).value))
    ensures t.kind == String ==> r == Ok(Str(t.text))
    ensures t.kind !in {Number, String} ==> r == Ok(Null)
  {
    match t.kind
    case Number => var i :- StoI(t.text); Ok(Integer(i))
    case String => Ok(Str(t.text))
    case _ => Ok(Null)
  }

  /** A Number literal reads back the integer whose decimal text it carries. */
  lemma LiteralRoundTrip(t: Token, i: Int32)
    requires t.kind == Number && t.text == Decimal(i)
    ensures LiteralValue(t) == Ok(Integer(i))
  {
    StoIDecimal(i);
  }
}
