/**
 Storage keys: fixed-width decimal identifiers order as strings exactly as their numbers do, and a
 topic-window key can be taken apart whatever the topic contains.
 */
module Keys {
  import opened Numeric

  // ---------------------------------------------------------------------------------------------
  // Decimal digits
  // ---------------------------------------------------------------------------------------------

  function Digit(d: nat): char
    requires d < 10
  {
    '0' + d as char
  }

  predicate IsDigit(c: char) {
    '0' <= c <= '9'
  }

  function DigitValue(c: char): nat
    requires IsDigit(c)
  {
    (c - '0') as nat
  }

  function Power10(k: nat): nat {
    if k == 0 then 1 else 10 * Power10(k - 1)
  }

  /** The low `width` decimal digits of `n`, most significant first. */
  function Padded(n: nat, width: nat): (s: string)
    ensures |s| == width && forall c | c in s :: IsDigit(c)
  {
    if width == 0 then "" else Padded(n / 10, width - 1) + [Digit(n % 10)]
  }

  /** The shortest decimal form. */
  function Decimal(n: nat): (s: string)
    ensures s != "" && forall c | c in s :: IsDigit(c)
  {
    if n < 10 then [Digit(n)] else Decimal(n / 10) + [Digit(n % 10)]
  }

  /** The value of a string of digits. */
  function Value(s: string): nat
    requires forall c | c in s :: IsDigit(c)
  {
    if s == "" then 0 else 10 * Value(s[..|s| - 1]) + DigitValue(s[|s| - 1])
  }

  lemma {:induction false} PaddedValue(n: nat, width: nat)
    requires n < Power10(width)
    ensures Value(Padded(n, width)) == n
    decreases width
  {
    if width > 0 {
      PaddedValue(n / 10, width - 1);
      var s := Padded(n, width);
      assert s[..|s| - 1] == Padded(n / 10, width - 1);
    }
  }

  lemma {:induction false} DecimalValue(n: nat)
    ensures Value(Decimal(n)) == n
  {
    var s := Decimal(n);
    if n >= 10 {
      DecimalValue(n / 10);
      assert s[..|s| - 1] == Decimal(n / 10);
    } else {
      assert s[..0] == "";
    }
  }

  // ---------------------------------------------------------------------------------------------
  // Snowflake keys
  // ---------------------------------------------------------------------------------------------

  const KEY_WIDTH: nat := 20

  function FormatLex(id: u64): string {
    Padded(id, KEY_WIDTH)
  }

  /** Byte-wise string order. */
  predicate Less(a: string, b: string)
    decreases |a|
  {
    if b == "" then false
    else if a == "" then true
    else a[0] < b[0] || (a[0] == b[0] && Less(a[1..], b[1..]))
  }

  /** Order is decided by the leading part of equal length, if it differs, else by the rest. */
  lemma {:induction false} LessAppend(a: string, b: string, x: char, y: char)
    requires |a| == |b|
    ensures Less(a + [x], b + [y]) <==> Less(a, b) || (a == b && x < y)
    decreases |a|
  {
    if a != "" {
      assert (a + [x])[1..] == a[1..] + [x] && (b + [y])[1..] == b[1..] + [y];
      assert a == [a[0]] + a[1..] && b == [b[0]] + b[1..];
      LessAppend(a[1..], b[1..], x, y);
    } else {
      assert a + [x] == [x] && b + [y] == [y];
    }
  }

  lemma {:induction false} PaddedOrder(m: nat, n: nat, width: nat)
    requires m < Power10(width) && n < Power10(width)
    ensures Less(Padded(m, width), Padded(n, width)) <==> m < n
    decreases width
  {
    if width > 0 {
      PaddedOrder(m / 10, n / 10, width - 1);
      LessAppend(Padded(m / 10, width - 1), Padded(n / 10, width - 1), Digit(m % 10), Digit(n % 10));
      PaddedValue(m / 10, width - 1);
      PaddedValue(n / 10, width - 1);
    }
  }

  lemma KeyIsWideEnough()
    ensures U64_MAX < Power10(KEY_WIDTH)
  {
    assert Power10(5) == 100_000;
    assert Power10(10) == 10_000_000_000 by {
      assert Power10(8) == 1000 * Power10(5);
    }
    assert Power10(15) == 1_000_000_000_000_000 by {
      assert Power10(13) == 1000 * Power10(10);
    }
    assert Power10(18) == 1000 * Power10(15);
    assert Power10(20) == 100 * Power10(18);
  }

  /** For all identifiers, the key order is the number order. */
  lemma KeysOrderAsNumbers(a: u64, b: u64)
    ensures Less(FormatLex(a), FormatLex(b)) <==> a < b
    ensures FormatLex(a) == FormatLex(b) <==> a == b
    ensures |FormatLex(a)| == 20
  {
    KeyIsWideEnough();
    PaddedOrder(a, b, KEY_WIDTH);
    PaddedValue(a, KEY_WIDTH);
    PaddedValue(b, KEY_WIDTH);
  }

  // ---------------------------------------------------------------------------------------------
  // Parsing
  // ---------------------------------------------------------------------------------------------

  const I64_MIN: int := -0x8000_0000_0000_0000
  const I64_MAX: int := 0x7FFF_FFFF_FFFF_FFFF

  predicate AllDigits(s: string) {
    s != "" && forall c | c in s :: IsDigit(c)
  }

  /** An optional plus sign, digits, and a value that fits. */
  function ParseU64(s: string): Result<u64> {
    var digits := if s != "" && s[0] == '+' then s[1..] else s;
    if !AllDigits(digits) || Value(digits) > U64_MAX then Err else Ok(Value(digits))
  }

  function ParseI64(s: string): Result<int> {
    if s != "" && s[0] == '-' then
      if !AllDigits(s[1..]) || -(Value(s[1..]) as int) < I64_MIN then Err else Ok(-(Value(s[1..]) as int))
    else
      var digits := if s != "" && s[0] == '+' then s[1..] else s;
      if !AllDigits(digits) || Value(digits) > I64_MAX then Err else Ok(Value(digits))
  }

  function FormatInt(n: int): string {
    if n < 0 then "-" + Decimal(-n) else Decimal(n)
  }

  lemma ParseFormatInt(n: int)
    requires I64_MIN <= n <= I64_MAX
    ensures ParseI64(FormatInt(n)) == Ok(n)
  {
    var digits := if n < 0 then Decimal(-n) else Decimal(n);
    DecimalValue(if n < 0 then -n else n);
    if n < 0 {
      assert FormatInt(n)[1..] == digits;
    } else {
      assert digits[0] in digits;
    }
  }

  lemma ParseFormatLex(id: u64)
    ensures ParseU64(FormatLex(id)) == Ok(id)
  {
    KeyIsWideEnough();
    PaddedValue(id, KEY_WIDTH);
    assert FormatLex(id)[0] in FormatLex(id);
  }

  // ---------------------------------------------------------------------------------------------
  // Topic-window keys
  // ---------------------------------------------------------------------------------------------

  datatype WindowKey = WindowKey(topic: string, start: int)

  function FormatWindow(key: WindowKey): string {
    key.topic + "#" + FormatInt(key.start)
  }

  /** Splits at the last '#'. */
  function RSplitHash(s: string): Option<(string, string)> {
    if s == "" then None
    else if s[|s| - 1] == '#' then Some((s[..|s| - 1], ""))
    else
      match RSplitHash(s[..|s| - 1])
      case None => None
      case Some((a, b)) => Some((a, b + [s[|s| - 1]]))
  }

  lemma {:induction false} SplitAppends(topic: string, rest: string)
    requires '#' !in rest
    ensures RSplitHash(topic + "#" + rest) == Some((topic, rest))
    decreases |rest|
  {
    var s := topic + "#" + rest;
    if rest == "" {
      assert s[..|s| - 1] == topic;
    } else {
      assert s[..|s| - 1] == topic + "#" + rest[..|rest| - 1];
      SplitAppends(topic, rest[..|rest| - 1]);
      assert rest[..|rest| - 1] + [rest[|rest| - 1]] == rest;
    }
  }

  function ParseWindow(s: string): Result<WindowKey> {
    match RSplitHash(s)
    case None => Err
    case Some((topic, start)) =>
      match ParseI64(start) case Err => Err case Ok(n) => Ok(WindowKey(topic, n))
  }

  /** A window key parses back to itself, for every topic, even one that contains '#'. */
  lemma WindowKeyRoundTrip(key: WindowKey)
    requires I64_MIN <= key.start <= I64_MAX
    ensures ParseWindow(FormatWindow(key)) == Ok(key)
  {
    var rest := FormatInt(key.start);
    assert '#' !in rest;
    SplitAppends(key.topic, rest);
    ParseFormatInt(key.start);
  }
}
