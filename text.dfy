/**
 * The JavaScript string built-ins the commands rely on, on `seq<char>`:
 * `parseInt` without a radix, `replace(/[^0-9]/g, '')`, `toLowerCase`,
 * `charAt(0).toUpperCase() + slice(1)`, `startsWith`, `trim` and `String(n)`.
 * Letters are changed only in the ASCII range.
 */
module Text {
  import opened Base

  predicate IsDigit(c: char) { '0' <= c <= '9' }

  predicate AllDigits(s: string) { forall i :: 0 <= i < |s| ==> IsDigit(s[i]) }

  /**
   * White space and line terminators as `trim` and `parseInt` skip them: tab,
   * vertical tab, form feed, the byte-order mark, line feed, carriage return,
   * the two Unicode line and paragraph separators, and every space separator
   * (Unicode category Zs).
   */
  predicate IsSpace(c: char) {
    c == ' ' || c == '\t' || c == '\n' || c == '\r' || c == '\U{000B}' || c == '\U{000C}'
    || c == '\U{00A0}' || c == '\U{FEFF}' || c == '\U{2028}' || c == '\U{2029}'
    || c == '\U{1680}' || '\U{2000}' <= c <= '\U{200A}' || c == '\U{202F}' || c == '\U{205F}'
    || c == '\U{3000}'
  }

  // ---------------------------------------------------------------- String(n)

  function DigitChar(d: nat): (c: char)
    requires d < 10
    ensures IsDigit(c) && c as int - '0' as int == d
  {
    ('0' as int + d) as char
  }

  /** `String(n)` (or `${n}`) for a non-negative integer: its decimal digits, without leading zeros. */
  function NatToString(n: nat): (s: string)
    ensures |s| > 0 && AllDigits(s)
    ensures s[0] == '0' ==> n == 0
    decreases n
  {
    if n < 10 then [DigitChar(n)] else NatToString(n / 10) + [DigitChar(n % 10)]
  }

  /** `String(n)` for an integer: a `-` before the digits of a negative number. */
  function IntToString(n: int): (s: string)
    ensures n >= 0 ==> s == NatToString(n)
    ensures n < 0 ==> s == ['-'] + NatToString(0 - n)
  {
    if n >= 0 then NatToString(n) else ['-'] + NatToString(0 - n)
  }

  // ---------------------------------------------------------------- parseInt

  /** The value of `c` as a digit in base `radix` (10 or 16 here), if it is one. */
  function DigitValue(c: char, radix: nat): (v: Option<nat>)
    ensures v.Some? ==> v.value < radix
    ensures radix == 10 ==> (v.Some? <==> IsDigit(c))
    ensures IsDigit(c) && 10 <= radix ==> v == Some(c as int - '0' as int)
  {
    var d: nat :=
      if '0' <= c <= '9' then c as int - '0' as int
      else if 'a' <= c <= 'z' then c as int - 'a' as int + 10
      else if 'A' <= c <= 'Z' then c as int - 'A' as int + 10
      else 36;
    if d < radix then Some(d) else None
  }

  predicate AllDigitsIn(s: string, radix: nat) {
    forall i :: 0 <= i < |s| ==> DigitValue(s[i], radix).Some?
  }

  /** The length of the longest prefix of `s` made of base-`radix` digits. */
  function DigitRun(s: string, radix: nat): (k: nat)
    ensures k <= |s|
    ensures AllDigitsIn(s[..k], radix)
    ensures k < |s| ==> DigitValue(s[k], radix).None?
  {
    if s == [] || DigitValue(s[0], radix).None? then 0
    else
      var k := 1 + DigitRun(s[1..], radix);
      assert s[..k] == [s[0]] + s[1..][..k - 1];
      k
  }

  /** The number the digits `s` write in base `radix`, most significant digit first. */
  function DigitsValue(s: string, radix: nat): nat
    requires AllDigitsIn(s, radix)
  {
    if s == [] then 0
    else
      var high := DigitsValue(s[..|s| - 1], radix);
      ProductNonNegative(high, radix);
      high * radix + DigitValue(s[|s| - 1], radix).value
  }

  lemma ProductNonNegative(a: nat, b: nat)
    ensures a * b >= 0
  {
  }

  /** `s` without its leading white space. */
  function TrimStart(s: string): (r: string)
    ensures |r| <= |s| && r == s[|s| - |r|..]
    ensures r == [] || !IsSpace(r[0])
    ensures forall i :: 0 <= i < |s| - |r| ==> IsSpace(s[i])
  {
    if s != [] && IsSpace(s[0]) then
      var r := TrimStart(s[1..]);
      assert s[1..][|s| - 1 - |r|..] == s[|s| - |r|..];
      assert forall i :: 1 <= i < |s| - |r| ==> s[i] == s[1..][i - 1];
      r
    else s
  }

  /** The unsigned part of `parseInt`: a `0x` or `0X` prefix selects base 16, then the longest run of digits is read. */
  function ParseUnsigned(u: string): (r: Option<nat>)
    ensures r.Some? ==> u != [] && IsDigit(u[0])
    ensures u != [] && IsDigit(u[0]) && !(|u| >= 2 && u[0] == '0' && (u[1] == 'x' || u[1] == 'X')) ==> r.Some?
  {
    var hex := |u| >= 2 && u[0] == '0' && (u[1] == 'x' || u[1] == 'X');
    var radix := if hex then 16 else 10;
    var v := if hex then u[2..] else u;
    var digits := v[..DigitRun(v, radix)];
    if digits == [] then None else Some(DigitsValue(digits, radix))
  }

  /** The sign and the unsigned part of `parseInt`, read from text whose leading white space is gone. */
  function ParseSigned(t: string): (r: Option<int>)
    ensures r.Some? ==> t != [] && (IsDigit(t[0]) || t[0] == '-' || t[0] == '+')
    ensures r.Some? ==> var k := if t[0] == '-' || t[0] == '+' then 1 else 0; k < |t| && IsDigit(t[k])
    ensures r.Some? && r.value < 0 ==> t != [] && t[0] == '-'
  {
    var negative := |t| > 0 && t[0] == '-';
    var u := if |t| > 0 && (t[0] == '-' || t[0] == '+') then t[1..] else t;
    match ParseUnsigned(u)
    case None => None
    case Some(value) => Some(if negative then 0 - value else value)
  }

  /**
   * `parseInt(s)` with no radix: leading white space is skipped, one `-` or `+`
   * is read, then the unsigned part; with no digit at all the result is `NaN`,
   * here `None`. (A negative zero reads as 0.)
   */
  function ParseInt(s: string): (r: Option<int>)
    ensures r.Some? ==> exists i :: 0 <= i < |s| && IsDigit(s[i])
    ensures r.Some? ==>
      TrimStart(s) != [] && (IsDigit(TrimStart(s)[0]) || TrimStart(s)[0] == '-' || TrimStart(s)[0] == '+')
    ensures r.Some? && r.value < 0 ==> TrimStart(s) != [] && TrimStart(s)[0] == '-'
  {
    var t := TrimStart(s);
    var r := ParseSigned(t);
    if r.Some? then
      var k := if t[0] == '-' || t[0] == '+' then 1 else 0;
      assert s[|s| - |t| + k] == t[k];
      r
    else r
  }

  /** `parseInt(args[i])`; an argument that is not there is `undefined`, which parses as `NaN`. */
  function ParseArg(args: seq<string>, i: nat): (r: Option<int>)
    ensures i >= |args| ==> r.None?
    ensures i < |args| ==> r == ParseInt(args[i])
  {
    if i < |args| then ParseInt(args[i]) else None
  }

  /** The guard `isNaN(amount) || amount <= 0` passes. */
  predicate IsPositiveAmount(amount: Option<int>): (b: bool)
    ensures b <==> !(amount.None? || amount.value <= 0)
    ensures b ==> amount.value >= 1
  {
    amount.Some? && amount.value > 0
  }

  /**
   * `parseInt` reads back what `String(n)` writes, for any integer, also when
   * text that does not start with a digit follows it.
   */
  lemma ParseIntOfIntToString(n: int, rest: string)
    requires rest == [] || !IsDigit(rest[0])
    requires n == 0 ==> rest == [] || (rest[0] != 'x' && rest[0] != 'X')
    ensures ParseInt(IntToString(n) + rest) == Some(n)
  {
    if n >= 0 {
      assert IntToString(n) == NatToString(n);
      ParseIntOfDecimal(n, rest);
    } else {
      NegativeIntToStringThen(n, rest);
      ParseIntOfNegativeDecimal(0 - n, rest);
    }
  }

  lemma NegativeIntToStringThen(n: int, rest: string)
    requires n < 0
    ensures IntToString(n) + rest == ['-'] + (NatToString(0 - n) + rest)
  {
    var d := NatToString(0 - n);
    assert IntToString(n) == ['-'] + d;
    assert (['-'] + d) + rest == ['-'] + (d + rest);
  }

  /** An argument written as `String(n)` is read as `n`, and passes the guard iff `n` is positive. */
  lemma DecimalArgument(args: seq<string>, i: nat, n: nat)
    requires i < |args| && args[i] == NatToString(n)
    ensures ParseArg(args, i) == Some(n)
    ensures IsPositiveAmount(ParseArg(args, i)) <==> n > 0
  {
    ParseIntOfDecimal(n, []);
    assert NatToString(n) + [] == NatToString(n);
  }

  lemma {:induction false} DigitsValueOfNatToString(n: nat)
    ensures AllDigitsIn(NatToString(n), 10)
    ensures DigitsValue(NatToString(n), 10) == n
    decreases n
  {
    var s := NatToString(n);
    if n >= 10 {
      DigitsValueOfNatToString(n / 10);
      assert s[..|s| - 1] == NatToString(n / 10);
    }
  }

  lemma {:induction false} DigitRunOfDigitsThenOther(p: string, rest: string)
    requires AllDigits(p)
    requires rest == [] || !IsDigit(rest[0])
    ensures DigitRun(p + rest, 10) == |p|
    decreases |p|
  {
    if p != [] {
      assert (p + rest)[1..] == p[1..] + rest;
      DigitRunOfDigitsThenOther(p[1..], rest);
    }
  }

  lemma ParseUnsignedOfDecimal(n: nat, rest: string)
    requires rest == [] || !IsDigit(rest[0])
    requires n == 0 ==> rest == [] || (rest[0] != 'x' && rest[0] != 'X')
    ensures ParseUnsigned(NatToString(n) + rest) == Some(n)
  {
    var p := NatToString(n);
    var s := p + rest;
    assert s[0] == p[0];
    assert n == 0 ==> |p| == 1;
    DigitRunOfDigitsThenOther(p, rest);
    assert s[..|p|] == p;
    DigitsValueOfNatToString(n);
  }

  /**
   * `parseInt` reads back what `String(n)` writes, and stops at the first
   * character that is not a digit ("150coins" reads as 150); only "0" followed
   * by "x" or "X" switches to base 16.
   */
  lemma ParseIntOfDecimal(n: nat, rest: string)
    requires rest == [] || !IsDigit(rest[0])
    requires n == 0 ==> rest == [] || (rest[0] != 'x' && rest[0] != 'X')
    ensures ParseInt(NatToString(n) + rest) == Some(n)
  {
    var p := NatToString(n);
    var s := p + rest;
    ParseUnsignedOfDecimal(n, rest);
    assert IsDigit(s[0]) by { assert s[0] == p[0]; }
    ParseIntOfDigitFirst(s);
  }

  lemma ParseIntOfDigitFirst(s: string)
    requires s != [] && IsDigit(s[0])
    ensures ParseInt(s) == ParseUnsigned(s)
  {
    assert !IsSpace(s[0]);
    assert TrimStart(s) == s;
  }

  /** A leading minus sign negates the unsigned part that follows it. */
  lemma ParseIntOfMinus(u: string, v: nat)
    requires ParseUnsigned(u) == Some(v)
    ensures ParseInt(['-'] + u) == Some(0 - v)
  {
    var m := ['-'] + u;
    assert m[0] == '-' && !IsSpace(m[0]);
    assert TrimStart(m) == m;
    assert m[1..] == u;
  }

  /** `parseInt` reads back what `String(n)` writes for a negative number. */
  lemma ParseIntOfNegativeDecimal(n: nat, rest: string)
    requires rest == [] || !IsDigit(rest[0])
    requires n == 0 ==> rest == [] || (rest[0] != 'x' && rest[0] != 'X')
    ensures ParseInt(['-'] + (NatToString(n) + rest)) == Some(0 - n)
  {
    ParseUnsignedOfDecimal(n, rest);
    ParseIntOfMinus(NatToString(n) + rest, n);
  }

  /** Unsigned text that does not start with a decimal digit reads no digit at all. */
  lemma ParseUnsignedWithoutLeadingDigit(u: string)
    requires u == [] || !IsDigit(u[0])
    ensures ParseUnsigned(u) == None
  {
    assert u != [] ==> DigitValue(u[0], 10).None?;
  }

  /** `parseInt` skips a leading white-space character, such as the ideographic space U+3000. */
  lemma ParseIntSkipsSpace(c: char, s: string)
    requires IsSpace(c)
    ensures ParseInt([c] + s) == ParseInt(s)
  {
    TrimStartSkipsSpace(c, s);
  }

  lemma TrimStartSkipsSpace(c: char, s: string)
    requires IsSpace(c)
    ensures TrimStart([c] + s) == TrimStart(s)
  {
    assert ([c] + s)[1..] == s;
  }


  /** `parseInt("\u3000" + String(n))` is n: a Unicode space before the digits is skipped. */
  lemma IdeographicSpaceBeforeDigits(n: nat)
    ensures ParseInt(['\U{3000}'] + NatToString(n)) == Some(n)
  {
    ParseIntSkipsSpace('\U{3000}', NatToString(n));
    ParseIntOfDecimal(n, []);
    assert NatToString(n) + [] == NatToString(n);
  }

  /** An argument with no decimal digit anywhere parses as `NaN`. */
  lemma ParseIntWithoutDigits(s: string)
    requires forall i :: 0 <= i < |s| ==> !IsDigit(s[i])
    ensures ParseInt(s) == None
  {
    var t := TrimStart(s);
    var u := if |t| > 0 && (t[0] == '-' || t[0] == '+') then t[1..] else t;
    if u != [] {
      assert u[0] == s[|s| - |u|];
    }
    ParseUnsignedWithoutLeadingDigit(u);
  }

  // ---------------------------------------------------------------- replace(/[^0-9]/g, '')

  /** `s.replace(/[^0-9]/g, '')`: the decimal digits of `s`, in order. */
  function StripNonDigits(s: string): (r: string)
    ensures AllDigits(r) && |r| <= |s|
  {
    if s == [] then []
    else (if IsDigit(s[0]) then [s[0]] else []) + StripNonDigits(s[1..])
  }

  lemma {:induction false} StripNonDigitsAppend(a: string, b: string)
    ensures StripNonDigits(a + b) == StripNonDigits(a) + StripNonDigits(b)
    decreases |a|
  {
    if a == [] {
      assert a + b == b;
    } else {
      var head := if IsDigit(a[0]) then [a[0]] else [];
      assert (a + b)[0] == a[0];
      assert (a + b)[1..] == a[1..] + b;
      assert StripNonDigits(a + b) == head + StripNonDigits(a[1..] + b);
      StripNonDigitsAppend(a[1..], b);
      assert StripNonDigits(a) == head + StripNonDigits(a[1..]);
    }
  }

  lemma {:induction false} StripNonDigitsKeepsDigits(s: string)
    requires AllDigits(s)
    ensures StripNonDigits(s) == s
    decreases |s|
  {
    if s != [] {
      StripNonDigitsKeepsDigits(s[1..]);
    }
  }

  lemma {:induction false} StripNonDigitsDropsOthers(s: string)
    requires forall i :: 0 <= i < |s| ==> !IsDigit(s[i])
    ensures StripNonDigits(s) == []
    decreases |s|
  {
    if s != [] {
      StripNonDigitsDropsOthers(s[1..]);
    }
  }

  /** Text around `id` without digits of its own strips to exactly `id`. */
  lemma StripAroundDigits(before: string, id: string, after: string)
    requires AllDigits(id)
    requires forall i :: 0 <= i < |before| ==> !IsDigit(before[i])
    requires forall i :: 0 <= i < |after| ==> !IsDigit(after[i])
    ensures StripNonDigits(before + id + after) == id
  {
    StripNonDigitsAppend(before + id, after);
    StripNonDigitsAppend(before, id);
    StripNonDigitsKeepsDigits(id);
    StripNonDigitsDropsOthers(before);
    StripNonDigitsDropsOthers(after);
  }

  /** A user mention `<@id>` or `<@!id>` strips to exactly the id. */
  lemma MentionStripsToId(id: string)
    requires AllDigits(id)
    ensures StripNonDigits("<@" + id + ">") == id
    ensures StripNonDigits("<@!" + id + ">") == id
  {
    StripAroundDigits("<@", id, ">");
    StripAroundDigits("<@!", id, ">");
  }

  // ---------------------------------------------------------------- case, prefixes, trim

  function LowerChar(c: char): char {
    if 'A' <= c <= 'Z' then (c as int + 32) as char else c
  }

  function UpperChar(c: char): char {
    if 'a' <= c <= 'z' then (c as int - 32) as char else c
  }

  /** `s.toLowerCase()` on ASCII letters. */
  function ToLower(s: string): (r: string)
    ensures |r| == |s|
    ensures forall i :: 0 <= i < |s| ==> r[i] == LowerChar(s[i])
  {
    seq(|s|, i requires 0 <= i < |s| => LowerChar(s[i]))
  }

  predicate IsLowerCase(s: string) {
    forall i :: 0 <= i < |s| ==> !('A' <= s[i] <= 'Z')
  }

  /** Lower-casing leaves no upper-case letter, and a lower-case string is its own lower case. */
  lemma ToLowerFacts(s: string)
    ensures IsLowerCase(ToLower(s))
    ensures IsLowerCase(s) ==> ToLower(s) == s
  {
  }

  /** `s.startsWith(prefix)`. */
  predicate StartsWith(s: string, prefix: string): (b: bool)
    ensures b <==> |prefix| <= |s| && forall i :: 0 <= i < |prefix| ==> s[i] == prefix[i]
    ensures b ==> s == prefix + s[|prefix|..]
  {
    |prefix| <= |s| && s[..|prefix|] == prefix
  }

  /** `s.charAt(0).toUpperCase() + s.slice(1)`; the empty string stays empty. */
  function Capitalize(s: string): (r: string)
    ensures |r| == |s|
    ensures s != [] ==> r[0] == UpperChar(s[0]) && r[1..] == s[1..]
  {
    if s == [] then [] else [UpperChar(s[0])] + s[1..]
  }

  /** `s` without its trailing white space. */
  function TrimEnd(s: string): (r: string)
    ensures |r| <= |s| && r == s[..|r|]
    ensures r == [] || !IsSpace(r[|r| - 1])
    ensures forall i :: |r| <= i < |s| ==> IsSpace(s[i])
    decreases |s|
  {
    if s != [] && IsSpace(s[|s| - 1]) then TrimEnd(s[..|s| - 1]) else s
  }

  /** Text that starts with a non-space character keeps that character first once trimmed. */
  lemma TrimKeepsFirst(s: string)
    ensures s != [] && !IsSpace(s[0]) ==> Trim(s) != [] && Trim(s)[0] == s[0]
  {
    if s != [] && !IsSpace(s[0]) {
      assert TrimStart(s) == s;
      var r := TrimEnd(s);
      assert r != [];
      assert r[0] == s[..|r|][0] == s[0];
    }
  }

  /** `s.trim()`. */
  function Trim(s: string): (r: string)
    ensures r == [] || (!IsSpace(r[0]) && !IsSpace(r[|r| - 1]))
    ensures r == [] <==> forall i :: 0 <= i < |s| ==> IsSpace(s[i])
  {
    TrimEnd(TrimStart(s))
  }
}
