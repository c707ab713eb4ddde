/** Integers written as text in formatted string fields: read as sizes by the parser of inputs
    (testlang/src/blob/parser.rs:62-77), read and written by the generator
    (uniafl/src/input_gen/testlang/generators/mod.rs:1028-1085). */
module TextNumbers {
  import opened Options
  import opened Schema

  const MIN: int := -0x8000_0000_0000_0000
  const MAX: int := 0x7fff_ffff_ffff_ffff
  const PLUS: int := '+' as int
  const MINUS: int := '-' as int

  function Radix(format: StringFormat): (r: nat)
    ensures 2 <= r <= 16
  {
    match format
    case BinInt => 2
    case OctInt => 8
    case DecInt => 10
    case HexInt => 16
  }

  /** What a byte of the text stands for, whatever the radix. */
  function Digit(byte: int): Option<nat> {
    if '0' as int <= byte <= '9' as int then Some(byte - '0' as int)
    else if 'a' as int <= byte <= 'z' as int then Some(byte - 'a' as int + 10)
    else if 'A' as int <= byte <= 'Z' as int then Some(byte - 'A' as int + 10)
    else None
  }

  function Digits(radix: nat, text: seq<int>): Option<nat> {
    if text == [] then Some(0)
    else
      var before, digit := Digits(radix, text[..|text| - 1]), Digit(text[|text| - 1]);
      if before.Some? && digit.Some? && digit.value < radix then Some(before.value * radix + digit.value) else None
  }

  /** `from_str_radix`: at least one digit, perhaps after a sign, and no overflow. */
  function Parsed(format: StringFormat, text: seq<int>): (x: Option<int>)
    ensures x.Some? ==> MIN <= x.value <= MAX
  {
    var signed := text != [] && (text[0] == PLUS || text[0] == MINUS);
    var digits := if signed then text[1..] else text;
    if digits == [] then None
    else match Digits(Radix(format), digits)
         case None => None
         case Some(n) =>
           var x: int := if signed && text[0] == MINUS then 0 - n else n;
           if MIN <= x <= MAX then Some(x) else None
  }

  function Shown(digit: nat): (byte: int)
    requires digit < 16
    ensures Digit(byte) == Some(digit) && byte != PLUS && byte != MINUS
  {
    if digit < 10 then '0' as int + digit else 'a' as int + digit - 10
  }

  function DigitsOf(radix: nat, n: nat): (text: seq<int>)
    requires 2 <= radix <= 16
    ensures text != [] && text[0] != PLUS && text[0] != MINUS
    decreases n
  {
    if n < radix then [Shown(n)] else DigitsOf(radix, n / radix) + [Shown(n % radix)]
  }

  /** `format!` with the radix of the format. */
  function Written(format: StringFormat, x: int): seq<int> {
    if x < 0 then [MINUS] + DigitsOf(Radix(format), -x) else DigitsOf(Radix(format), x)
  }

  lemma {:induction false} DigitsSnoc(radix: nat, front: seq<int>, last: int, n: nat, digit: nat)
    requires Digits(radix, front) == Some(n) && Digit(last) == Some(digit) && digit < radix
    ensures Digits(radix, front + [last]) == Some(n * radix + digit)
  {
    var text := front + [last];
    assert text[..|text| - 1] == front && text[|text| - 1] == last;
  }

  lemma {:induction false} Quotient(n: nat, radix: nat) returns (q: nat, m: nat)
    requires radix > 1
    ensures q == n / radix && m == n % radix && q * radix + m == n && m < radix && (n > 0 ==> q < n)
  {
    q, m := n / radix, n % radix;
    Smaller(q, radix, m);
  }

  lemma {:induction false} Smaller(q: nat, radix: nat, m: nat)
    requires radix > 1
    ensures q * radix + m > 0 ==> q < q * radix + m
  {
    assert q * radix == q * (radix - 2) + q + q && q * (radix - 2) >= 0;
  }

  lemma {:induction false} DigitsRead(radix: nat, n: nat)
    requires 2 <= radix <= 16
    ensures Digits(radix, DigitsOf(radix, n)) == Some(n)
    decreases n
  {
    if n < radix {
      DigitsSnoc(radix, [], Shown(n), 0, n);
      assert [] + [Shown(n)] == [Shown(n)];
    } else {
      var q, m := Quotient(n, radix);
      DigitsRead(radix, q);
      DigitsSnoc(radix, DigitsOf(radix, q), Shown(m), q, m);
    }
  }

  /** What the generator writes is read back. */
  lemma {:induction false} WrittenIsParsed(format: StringFormat, x: int)
    requires MIN <= x <= MAX
    ensures Parsed(format, Written(format, x)) == Some(x)
  {
    var n: nat := if x < 0 then -x else x;
    var digits := DigitsOf(Radix(format), n);
    DigitsRead(Radix(format), n);
    SignedIsParsed(format, digits, x);
  }

  lemma {:induction false} SignedIsParsed(format: StringFormat, digits: seq<int>, x: int)
    requires MIN <= x <= MAX && digits != [] && digits[0] != PLUS && digits[0] != MINUS
    requires Digits(Radix(format), digits) == Some(if x < 0 then 0 - x else x)
    ensures Parsed(format, if x < 0 then [MINUS] + digits else digits) == Some(x)
  {
    assert ([MINUS] + digits)[1..] == digits;
  }

  lemma {:induction false} TwoDigits(radix: nat, a: int, b: int, m: nat, n: nat)
    requires Digit(a) == Some(m) && Digit(b) == Some(n) && m < radix && n < radix
    ensures Digits(radix, [a, b]) == Some(m * radix + n)
  {
    DigitsSnoc(radix, [], a, 0, m);
    DigitsSnoc(radix, [a], b, m, n);
    assert [] + [a] == [a] && [a] + [b] == [a, b];
  }

  /** The radices of the formats. */
  lemma {:induction false} FormatsRead()
    ensures Parsed(BinInt, ['1' as int, '0' as int]) == Some(2)
    ensures Parsed(OctInt, ['1' as int, '7' as int]) == Some(15)
    ensures Parsed(DecInt, ['1' as int, '9' as int]) == Some(19)
    ensures Parsed(HexInt, ['f' as int, 'F' as int]) == Some(255)
    ensures Parsed(BinInt, ['2' as int, '0' as int]) == None
  {
    TwoDigits(2, '1' as int, '0' as int, 1, 0);
    TwoDigits(8, '1' as int, '7' as int, 1, 7);
    TwoDigits(10, '1' as int, '9' as int, 1, 9);
    TwoDigits(16, 'f' as int, 'F' as int, 15, 15);
    var text := ['2' as int, '0' as int];
    assert text[..1] == ['2' as int] && text[..1][..0] == [];
    assert Digits(2, text[..1]) == None;
  }
}
