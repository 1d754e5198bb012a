/** What the xeno-canto fetchers read from a result page, once the HTML is
    parsed: the `tr` rows of the first `table.results`, each either a header
    row (no `td`) or a data row given by the trimmed texts of the cells the
    scripts look at. Also the JavaScript number conversion applied to the
    length field, and facts about keeping the first `n` elements of a list. */
module Xeno {
  import opened Wrappers
  import opened Text

  /** The cells of one data row: common name (cell 1), length (cell 2),
      country (cell 6), type (cell 9), quality and download link (cell 11). */
  datatype Row = Row(bird: string, length: string, country: string, typeText: string,
                     quality: string, link: string)

  datatype TableRow = HeaderRow | DataRow(row: Row)

  /** A fetched page: no `table.results` at all, or the rows of the first one. */
  datatype Page = NoTable | Table(rows: seq<TableRow>)

  /** One element of an `overview[type]` list. */
  datatype Entry = Entry(title: string, bird: string, length: string, country: string,
                         typeName: string, quality: string, link: string, page: int)

  /** Node's `path.join(a, b)` for a directory `a` without a trailing slash
      and a name `b` without leading slash or `.`/`..` segments: the two parts
      with one separator between them. */
  function JsJoin(a: string, b: string): string {
    a + "/" + b
  }

  /** `rows.filter(row has td).length > 0` */
  predicate HasDataRows(rows: seq<TableRow>) {
    exists i :: 0 <= i < |rows| && rows[i].DataRow?
  }

  /** A JavaScript number: a finite value (kept exact, so `-0` is `0`), an
      infinity, or NaN. */
  datatype JsNumber = Num(v: real) | Infinity(negative: bool) | NaN

  /** The white space and line terminators that `Number` ignores at both ends
      of a string: tab, line feed, vertical tab, form feed, carriage return,
      space, no-break space, the Unicode space separators (U+1680,
      U+2000-U+200A, U+202F, U+205F, U+3000), the line and paragraph
      separators U+2028 and U+2029, and the byte order mark U+FEFF. */
  predicate IsJsSpace(c: char) {
    var n := c as int;
    if n <= 0x20 then n == 0x20 || 0x9 <= n <= 0xD
    else
      n == 0xA0 || n == 0x1680 || 0x2000 <= n <= 0x200A || n == 0x2028 || n == 0x2029 ||
      n == 0x202F || n == 0x205F || n == 0x3000 || n == 0xFEFF
  }

  /** `s` without white space at either end. */
  function JsTrim(s: string): string {
    JsTrimEnd(JsTrimStart(s))
  }

  /** `s` without white space at its start. */
  function JsTrimStart(s: string): string {
    if s != [] && IsJsSpace(s[0]) then JsTrimStart(s[1..]) else s
  }

  /** `s` without white space at its end. */
  function JsTrimEnd(s: string): string {
    if s != [] && IsJsSpace(s[|s| - 1]) then JsTrimEnd(s[..|s| - 1]) else s
  }

  function Pow10(n: nat): (p: nat)
    ensures p > 0
  {
    if n == 0 then 1 else 10 * Pow10(n - 1)
  }

  /** The exact value of `m` times ten to the power `e`. */
  function Scaled(m: nat, e: int): real {
    if e >= 0 then (m * Pow10(e)) as real else m as real / Pow10(-e) as real
  }

  /** The position of the first exponent mark `e` or `E`, or `|s|`. */
  function ExponentMark(s: string): (i: nat)
    ensures i <= |s|
  {
    if s == [] || s[0] == 'e' || s[0] == 'E' then 0 else 1 + ExponentMark(s[1..])
  }

  /** `s` is a run of decimal digits, possibly empty. */
  predicate DecimalDigits(s: string)
    decreases |s|
  {
    s == [] || (DecimalDigits(s[..|s| - 1]) && IsDigit(s[|s| - 1]))
  }

  /** The value of a run of decimal digits. */
  function DecimalValue(s: string): nat
    decreases |s|
  {
    if s == [] then 0 else DecimalValue(s[..|s| - 1]) * 10 + HexDigit(s[|s| - 1])
  }

  /** The digits of an exponent, with an optional sign. */
  function SignedInteger(s: string): Option<int> {
    var signed := s != [] && (s[0] == '+' || s[0] == '-');
    var digits := if signed then s[1..] else s;
    if digits != [] && DecimalDigits(digits) then
      var v: int := DecimalValue(digits);
      Some(if signed && s[0] == '-' then -v else v)
    else None
  }

  /** An unsigned decimal literal: `Infinity`, or digits with an optional
      `.` and fraction digits (at least one digit in all) and an optional
      exponent. */
  function UnsignedDecimal(s: string): JsNumber {
    if s == "Infinity" then Infinity(false)
    else
      var e := ExponentMark(s);
      var mantissa := s[..e];
      var exponent := if e < |s| then SignedInteger(s[e + 1..]) else Some(0);
      var dot := FirstIndexOf(mantissa, '.');
      var whole := mantissa[..dot];
      var fraction := if dot < |mantissa| then mantissa[dot + 1..] else "";
      if exponent.None? || !DecimalDigits(whole) || !DecimalDigits(fraction) || whole + fraction == [] then NaN
      else Num(Scaled(DecimalValue(whole + fraction), exponent.value - |fraction|))
  }

  function Negate(n: JsNumber): JsNumber {
    match n
    case Num(v) => Num(-v)
    case Infinity(negative) => Infinity(!negative)
    case NaN => NaN
  }

  /** The base a `0x`, `0o` or `0b` prefix announces, or 0 for none. */
  function Radix(c: char): nat {
    if c == 'x' || c == 'X' then 16
    else if c == 'o' || c == 'O' then 8
    else if c == 'b' || c == 'B' then 2
    else 0
  }

  /** The value of a hexadecimal digit, or 16 for any other character. */
  function HexDigit(c: char): (d: nat)
    ensures d <= 16
  {
    if '0' <= c <= '9' then c as int - '0' as int
    else if 'a' <= c <= 'f' then c as int - 'a' as int + 10
    else if 'A' <= c <= 'F' then c as int - 'A' as int + 10
    else 16
  }

  /** Every character of `s` is a digit of base `radix`. */
  predicate AllRadixDigits(s: string, radix: nat)
    decreases |s|
  {
    s == [] || (AllRadixDigits(s[..|s| - 1], radix) && HexDigit(s[|s| - 1]) < radix)
  }

  /** The value of the digits of `s` in base `radix`. */
  function RadixValue(s: string, radix: nat): nat
    decreases |s|
  {
    if s == [] then 0 else RadixValue(s[..|s| - 1], radix) * radix + HexDigit(s[|s| - 1])
  }

  /** JavaScript's `Number(s)` on a string: white space at both ends is
      ignored; the empty rest is 0; `0x`, `0o` and `0b` with at least one
      digit of that base and no sign are integers; otherwise an optional
      sign and an unsigned decimal literal; anything else is NaN. */
  function ToNumber(s: string): JsNumber {
    var t := JsTrim(s);
    if t == [] then Num(0.0)
    else if |t| > 2 && t[0] == '0' && Radix(t[1]) > 0 then
      if AllRadixDigits(t[2..], Radix(t[1])) then Num(RadixValue(t[2..], Radix(t[1])) as real) else NaN
    else
      var signed := t[0] == '-' || t[0] == '+';
      var n := UnsignedDecimal(if signed then t[1..] else t);
      if t[0] == '-' then Negate(n) else n
  }

  /** The scanned digit runs are exactly the strings of decimal digits,
      with the value they write. */
  lemma {:induction false} DecimalDigitsValue(s: string)
    ensures DecimalDigits(s) <==> AllDigits(s)
    ensures AllDigits(s) ==> DecimalValue(s) == DigitsValue(s)
    decreases |s|
  {
    if s != [] {
      var p := s[..|s| - 1];
      DecimalDigitsValue(p);
      assert AllDigits(s) <==> AllDigits(p) && IsDigit(s[|s| - 1]) by {
        if AllDigits(p) && IsDigit(s[|s| - 1]) {
          forall i | 0 <= i < |s| ensures IsDigit(s[i]) {
            if i < |p| { assert s[i] == p[i]; }
          }
        }
      }
    }
  }

  /** A string that starts and ends with a digit or `.` has nothing to
      trim, no radix prefix and no sign. */
  lemma ToNumberUnsigned(t: string)
    requires t != [] && (IsDigit(t[0]) || t[0] == '.') && (IsDigit(t[|t| - 1]) || t[|t| - 1] == '.')
    requires |t| > 1 ==> IsDigit(t[1]) || t[1] == '.'
    ensures ToNumber(t) == UnsignedDecimal(t)
  {
    assert !IsJsSpace(t[0]) && !IsJsSpace(t[|t| - 1]);
    assert JsTrim(t) == t;
    assert |t| > 2 ==> Radix(t[1]) == 0;
    assert t[0] != '-' && t[0] != '+';
  }

  /** Digits and dots only, split at the first dot into `whole` and
      `fraction` (or no dot at all): the value the digits write. */
  lemma UnsignedPlain(t: string, whole: string, fraction: string, dotted: bool)
    requires forall i :: 0 <= i < |t| ==> IsDigit(t[i]) || t[i] == '.'
    requires AllDigits(whole) && AllDigits(fraction) && whole + fraction != []
    requires t == if dotted then whole + "." + fraction else whole
    requires !dotted ==> fraction == []
    ensures UnsignedDecimal(t) == Num(Scaled(DigitsValue(whole + fraction), -|fraction|))
  {
    NoInfinityNoExponent(t);
    assert t[..ExponentMark(t)] == t;
    MantissaParts(whole, fraction, dotted);
    DecimalDigitsValue(whole);
    DecimalDigitsValue(fraction);
    DigitsAppend(whole, fraction);
    DecimalDigitsValue(whole + fraction);
  }

  /** Digits and dots are neither `Infinity` nor hold an exponent. */
  lemma NoInfinityNoExponent(t: string)
    requires forall i :: 0 <= i < |t| ==> IsDigit(t[i]) || t[i] == '.'
    ensures t != "Infinity" && ExponentMark(t) == |t|
  {
    assert t == [] || IsDigit(t[0]) || t[0] == '.';
    NoExponentMark(t);
  }

  /** A mantissa of digits, with or without a dot and fraction, splits at
      its first dot back into those parts. */
  lemma MantissaParts(whole: string, fraction: string, dotted: bool)
    requires AllDigits(whole) && (!dotted ==> fraction == [])
    ensures var t := if dotted then whole + "." + fraction else whole;
      var dot := FirstIndexOf(t, '.');
      t[..dot] == whole && (if dot < |t| then t[dot + 1..] else "") == fraction
  {
    var t := if dotted then whole + "." + fraction else whole;
    assert '.' !in whole by {
      forall i | 0 <= i < |whole| ensures whole[i] != '.' {
        assert IsDigit(whole[i]);
      }
    }
    var r := if dotted then "." + fraction else "";
    assert t == whole + r;
    FirstIndexOfAfter(whole, r, '.');
    assert t[..|whole|] == whole;
    if dotted {
      assert t[|whole| + 1..] == fraction;
    }
  }

  lemma DigitsAppend(a: string, b: string)
    requires AllDigits(a) && AllDigits(b)
    ensures AllDigits(a + b)
  {
    forall i | 0 <= i < |a + b| ensures IsDigit((a + b)[i]) {
      if i >= |a| { assert (a + b)[i] == b[i - |a|]; }
    }
  }

  /** Without `e` or `E` the mark is past the end. */
  lemma {:induction false} NoExponentMark(s: string)
    requires forall j :: 0 <= j < |s| ==> s[j] != 'e' && s[j] != 'E'
    ensures ExponentMark(s) == |s|
    decreases |s|
  {
    if s != [] {
      assert s[0] != 'e' && s[0] != 'E';
      NoExponentMark(s[1..]);
    }
  }

  /** A run of decimal digits is its value, the empty string included. */
  lemma DigitsNumber(d: string)
    requires AllDigits(d)
    ensures ToNumber(d) == Num(DigitsValue(d) as real)
  {
    if d == [] {
      assert JsTrim(d) == [];
    } else {
      ToNumberUnsigned(d);
      assert d + "" == d;
      UnsignedPlain(d, d, "", false);
      assert Scaled(DigitsValue(d), 0) == DigitsValue(d) as real by { assert Pow10(0) == 1; }
    }
  }

  /** Digits, a `.` and digits, with at least one digit, are the exact
      decimal fraction they write. */
  lemma DecimalNumber(whole: string, fraction: string)
    requires AllDigits(whole) && AllDigits(fraction) && whole + fraction != []
    ensures ToNumber(whole + "." + fraction)
      == Num(DigitsValue(whole + fraction) as real / Pow10(|fraction|) as real)
  {
    var t := whole + "." + fraction;
    forall i | 0 <= i < |t| ensures IsDigit(t[i]) || t[i] == '.' {
      if i < |whole| { assert t[i] == whole[i]; }
      else if i > |whole| { assert t[i] == fraction[i - |whole| - 1]; }
    }
    ToNumberUnsigned(t);
    UnsignedPlain(t, whole, fraction, true);
    ScaledDown(DigitsValue(whole + fraction), |fraction|);
  }

  lemma ScaledDown(m: nat, n: nat)
    ensures Scaled(m, -(n as int)) == m as real / Pow10(n) as real
  {
    if n == 0 {
      assert Pow10(0) == 1;
    }
  }

  /** The `k`-th field of `s.split(':')`, or `None` (`undefined`) when there
      are not that many fields. */
  function Field(s: string, k: nat): Option<string>
    decreases |s|
  {
    var i := Find(s, ":");
    if k == 0 then Some(if i < 0 then s else s[..i])
    else if i < 0 then None
    else Field(s[i + 1..], k - 1)
  }

  /** `Number(field)` where a missing field is `undefined`; both undefined and
      NaN make every comparison false. */
  function FieldNumber(s: string, k: nat): JsNumber {
    match Field(s, k)
    case None => NaN
    case Some(f) => ToNumber(f)
  }

  /** JavaScript's `n > c` on such a number. */
  predicate Greater(n: JsNumber, c: int) {
    match n
    case Num(v) => v > c as real
    case Infinity(negative) => !negative
    case NaN => false
  }

  /** JavaScript's `n === c` on such a number. */
  predicate Equals(n: JsNumber, c: int) { n.Num? && n.v == c as real }

  /** The first `n` elements of `s`, or all of them. */
  function Take<T>(s: seq<T>, n: nat): (r: seq<T>)
    ensures |r| <= n && (|s| >= n ==> |r| == n)
    ensures r <= s
  {
    if |s| <= n then s else s[..n]
  }

  lemma TakeOfFull<T>(a: seq<T>, b: seq<T>, n: nat)
    requires |a| >= n
    ensures Take(a + b, n) == Take(a, n)
  {
    assert (a + b)[..n] == a[..n];
  }

  /** Cutting to `n` before appending changes nothing once cut again. */
  lemma TakeTakeAppend<T>(a: seq<T>, b: seq<T>, n: nat)
    ensures Take(Take(a, n) + b, n) == Take(a + b, n)
  {
    if |a| > n {
      TakeOfFull(a[..n], b, n);
      TakeOfFull(a, b, n);
    }
  }

  /** Two rounds of appending and cutting to `n` are one round with both
      parts appended. */
  lemma TakeTwice<T>(a: seq<T>, b: seq<T>, c: seq<T>, n: nat)
    ensures Take(Take(a + b, n) + c, n) == Take(a + (b + c), n)
  {
    TakeTakeAppend(a + b, c, n);
    assert a + b + c == a + (b + c);
  }

  /** How many entries a type may receive: `count < maxAmounts[type]` is
      false for a type without a quota (undefined) and for a quota of 0 or
      less. */
  function Cap(maxAmounts: map<string, int>, t: string): nat {
    if t in maxAmounts && maxAmounts[t] > 0 then maxAmounts[t] else 0
  }

  /** `count < maxAmounts[type]` */
  predicate Below(count: int, maxAmounts: map<string, int>, t: string) {
    t in maxAmounts && count < maxAmounts[t]
  }

  lemma BelowIsUnderCap(count: nat, maxAmounts: map<string, int>, t: string)
    requires count <= Cap(maxAmounts, t)
    ensures Below(count, maxAmounts, t) <==> count < Cap(maxAmounts, t)
  {
  }
}
