/** The query-string handling of the list handler
    (server/src/routes/projectRoutes.js:29-35): JavaScript's `parseInt`
    without a radix, the `value || fallback` defaulting, and the offset. */
module Params {
  import opened Common

  /** The white space `parseInt` skips before a number (its ASCII members). */
  predicate IsSpace(c: char) {
    c == ' ' || c == '\t' || c == '\n' || c == '\r' || c as int == 0x0B || c as int == 0x0C
  }

  /** The text `parseInt` reads after skipping the white space it starts with. */
  function TrimStart(s: string): (r: string)
    ensures |r| <= |s| && r == s[|s| - |r|..]
    ensures forall i :: 0 <= i < |s| - |r| ==> IsSpace(s[i])
    ensures r == [] || !IsSpace(r[0])
  {
    if s != [] && IsSpace(s[0]) then TrimStart(s[1..]) else s
  }

  /** The value of `c` as a digit of a base up to 36, or 36 when `c` is no digit. */
  function DigitValue(c: char): (d: nat)
    ensures d <= 36
  {
    if '0' <= c <= '9' then c as int - '0' as int
    else if 'a' <= c <= 'z' then c as int - 'a' as int + 10
    else if 'A' <= c <= 'Z' then c as int - 'A' as int + 10
    else 36
  }

  /** The length of the longest prefix of `s` made of digits of `radix`. */
  function DigitRun(s: string, radix: nat): (n: nat)
    ensures n <= |s|
    ensures forall i :: 0 <= i < n ==> DigitValue(s[i]) < radix
    ensures n < |s| ==> DigitValue(s[n]) >= radix
  {
    if s != [] && DigitValue(s[0]) < radix then 1 + DigitRun(s[1..], radix) else 0
  }

  /** The number the digits `ds` denote in `radix`, most significant first. */
  function DigitsValue(ds: string, radix: nat): nat {
    if ds == [] then 0 else DigitsValue(ds[..|ds| - 1], radix) * radix + DigitValue(ds[|ds| - 1])
  }

  predicate HasHexPrefix(u: string) {
    |u| >= 2 && u[0] == '0' && (u[1] == 'x' || u[1] == 'X')
  }

  /** The unsigned part of `parseInt`: a `0x`/`0X` prefix selects base 16
      (base 10 otherwise), then the longest run of digits is read. No digit
      at all gives NaN, here None. */
  function ParseUnsigned(u: string): (r: Option<int>)
    ensures r.Some? ==> r.value >= 0
  {
    var radix := if HasHexPrefix(u) then 16 else 10;
    var body := if HasHexPrefix(u) then u[2..] else u;
    var n := DigitRun(body, radix);
    if n == 0 then None else Some(DigitsValue(body[..n], radix))
  }

  /** JavaScript's `parseInt(s)` without a radix: leading white space is
      skipped and an optional sign is read before the unsigned part. */
  function ParseInt(s: string): (r: Option<int>)
    ensures TrimStart(s) == [] ==> r.None?
    ensures r.Some? && r.value < 0 ==> TrimStart(s)[0] == '-'
  {
    var t := TrimStart(s);
    if t != [] && t[0] == '-' then
      match ParseUnsigned(t[1..])
      case None => None
      case Some(v) => Some(-v)
    else if t != [] && t[0] == '+' then ParseUnsigned(t[1..])
    else ParseUnsigned(t)
  }

  /** `parseInt(q) || fallback`: NaN and zero are falsy, so a missing,
      non-numeric or zero parameter takes the fallback. */
  function IntParamOr(q: Option<string>, fallback: int): (r: int)
    ensures fallback != 0 ==> r != 0
    ensures (q.None? || ParseInt(q.value).None? || ParseInt(q.value) == Some(0)) ==> r == fallback
    ensures q.Some? && ParseInt(q.value).Some? && ParseInt(q.value).value != 0 ==> r == ParseInt(q.value).value
    ensures r != fallback ==> q.Some? && ParseInt(q.value) == Some(r)
  {
    match q
    case None => fallback
    case Some(s) =>
      match ParseInt(s)
      case None => fallback
      case Some(v) => if v == 0 then fallback else v
  }

  /** `q || fallback` for a string parameter: the empty string is falsy. */
  function StringParamOr(q: Option<string>, fallback: string): (r: string)
    ensures q.Some? && q.value != "" ==> r == q.value
    ensures (q.None? || q.value == "") ==> r == fallback
  {
    if q.None? || q.value == "" then fallback else q.value
  }

  /** The number of rows a page skips: `(page - 1) * limit`. */
  function Offset(page: int, limit: int): (offset: int)
    ensures page == 1 || limit == 0 ==> offset == 0
    ensures page >= 1 && limit >= 0 ==> offset >= 0
  {
    (page - 1) * limit
  }

  /** For page and limit of at least one the offset is a whole number of
      full pages: zero on the first page, `limit` more on each later one. */
  lemma {:induction false} OffsetOfFirstPages(page: int, limit: int)
    requires page >= 1 && limit >= 1
    ensures Offset(page, limit) >= 0
    ensures page == 1 <==> Offset(page, limit) == 0
    ensures page > 1 ==> Offset(page, limit) == Offset(page - 1, limit) + limit
    decreases page
  {
    if page > 1 {
      OffsetOfFirstPages(page - 1, limit);
      assert (page - 1) * limit == (page - 2) * limit + limit;
    }
  }

  function DigitChar(d: nat): (c: char)
    requires d < 10
    ensures DigitValue(c) == d
  {
    ('0' as int + d) as char
  }

  /** The decimal numeral of `n`, as a client writes it in the query string. */
  function Decimal(n: nat): (s: string)
    ensures s != []
    ensures forall i :: 0 <= i < |s| ==> DigitValue(s[i]) < 10
  {
    if n < 10 then [DigitChar(n)] else Decimal(n / 10) + [DigitChar(n % 10)]
  }

  lemma {:induction false} DecimalValue(n: nat)
    ensures DigitsValue(Decimal(n), 10) == n
  {
    if n >= 10 {
      DecimalValue(n / 10);
      var s := Decimal(n);
      assert s[..|s| - 1] == Decimal(n / 10);
    }
  }

  /** A run of digits followed by a character that is no digit is read whole. */
  lemma {:induction false} DigitRunOfDigits(d: string, rest: string, radix: nat)
    requires forall i :: 0 <= i < |d| ==> DigitValue(d[i]) < radix
    requires rest == [] || DigitValue(rest[0]) >= radix
    ensures DigitRun(d + rest, radix) == |d|
  {
    if d != [] {
      assert (d + rest)[1..] == d[1..] + rest;
      DigitRunOfDigits(d[1..], rest, radix);
    } else {
      assert d + rest == rest;
    }
  }

  /** What may follow a decimal numeral without changing how `parseInt`
      reads it: nothing, or a character that is no decimal digit, except an
      `x` right after a lone "0" (that would be a hexadecimal prefix). */
  predicate EndsNumeral(n: nat, rest: string) {
    rest == [] || (DigitValue(rest[0]) >= 10 && (n > 0 || (rest[0] != 'x' && rest[0] != 'X')))
  }

  /** A decimal numeral never looks like a hexadecimal prefix. */
  lemma DecimalIsNotHex(n: nat, rest: string)
    requires EndsNumeral(n, rest)
    ensures !HasHexPrefix(Decimal(n) + rest)
  {
    var d := Decimal(n);
    var u := d + rest;
    if |u| >= 2 && u[0] == '0' {
      if n >= 10 {
        assert u[1] == d[1] && DigitValue(d[1]) < 10;
      } else {
        assert u[1] == rest[0];
      }
    }
  }

  /** The digits `parseInt` takes from a numeral followed by `rest` are the numeral. */
  lemma DecimalDigits(n: nat, rest: string)
    requires rest == [] || DigitValue(rest[0]) >= 10
    ensures DigitRun(Decimal(n) + rest, 10) == |Decimal(n)|
    ensures (Decimal(n) + rest)[..|Decimal(n)|] == Decimal(n)
  {
    DigitRunOfDigits(Decimal(n), rest, 10);
  }

  /** The numeral of `n` followed by `rest`, after sign handling, is read as `n`. */
  lemma UnsignedDecimal(n: nat, rest: string)
    requires EndsNumeral(n, rest)
    ensures ParseUnsigned(Decimal(n) + rest) == Some(n)
  {
    DecimalIsNotHex(n, rest);
    DecimalDigits(n, rest);
    DecimalValue(n);
  }

  /** `parseInt` skips nothing before a digit or a minus sign. */
  lemma NothingToTrim(u: string)
    requires u != [] && DigitValue(u[0]) < 10
    ensures TrimStart(u) == u
    ensures TrimStart("-" + u) == "-" + u
  {
    assert !IsSpace(u[0]);
    var m := "-" + u;
    assert m[0] == '-' && !IsSpace(m[0]);
  }

  /** A leading minus sign negates what the unsigned part reads. */
  lemma MinusSign(m: string, u: string)
    requires m == "-" + u && TrimStart(m) == m
    ensures ParseInt(m) == match ParseUnsigned(u) case None => None case Some(v) => Some(-v)
  {
    assert m[1..] == u;
  }

  /** A string led by a digit is read by the unsigned part, and a minus
      sign in front of it negates the reading. */
  lemma DigitLed(u: string, n: nat)
    requires u != [] && DigitValue(u[0]) < 10 && ParseUnsigned(u) == Some(n)
    ensures ParseInt(u) == Some(n)
    ensures ParseInt("-" + u) == Some(-(n as int))
  {
    NothingToTrim(u);
    MinusSign("-" + u, u);
  }

  /** `parseInt` reads back the decimal numeral of any natural number, with
      or without a minus sign, and stops at the first character that is not
      a decimal digit ("12.5", "12 " and "12abc" read as 12). */
  lemma ParseDecimal(n: nat, rest: string)
    requires EndsNumeral(n, rest)
    ensures ParseInt(Decimal(n) + rest) == Some(n)
    ensures ParseInt("-" + (Decimal(n) + rest)) == Some(-(n as int))
  {
    var d := Decimal(n);
    var u := d + rest;
    UnsignedDecimal(n, rest);
    assert u[0] == d[0];
    DigitLed(u, n);
  }

  lemma ParseNumeral(n: nat)
    ensures ParseInt(Decimal(n)) == Some(n)
  {
    ParseDecimal(n, "");
    assert Decimal(n) + "" == Decimal(n);
  }

  /** A page or limit written as a positive decimal numeral is taken as it
      is; a missing one, "0" and a non-numeric one take the fallback. */
  lemma IntParamDecimal(n: nat, fallback: int)
    ensures n > 0 ==> IntParamOr(Some(Decimal(n)), fallback) == n
    ensures n == 0 ==> IntParamOr(Some(Decimal(n)), fallback) == fallback
    ensures IntParamOr(None, fallback) == fallback
  {
    ParseNumeral(n);
  }

  /** A parameter with no digit where `parseInt` looks for one reads as NaN. */
  lemma NonNumeric(s: string)
    requires s != [] && DigitValue(s[0]) >= 10 && s[0] != '+' && s[0] != '-' && !IsSpace(s[0])
    ensures ParseInt(s) == None
  {
    assert TrimStart(s) == s;
    assert !HasHexPrefix(s);
    assert DigitRun(s, 10) == 0;
  }
}
