/**
 * The account chooser's entries. Each account is listed as its id in decimal,
 * a bar and its name (`id + "|" + name`); choosing an entry reads the id back
 * from the text before the first bar with Java's `Integer.parseInt`.
 */
module Combo {
  import opened Outcomes

  /** Bounds of a Java `int`, the type of the parsed id. */
  const IntMin: int := -0x8000_0000
  const IntMax: int := 0x7fff_ffff

  predicate IsDigit(c: char) { '0' <= c <= '9' }

  predicate AllDigits(s: string) { forall i :: 0 <= i < |s| ==> IsDigit(s[i]) }

  function DigitChar(d: int): (c: char)
    requires 0 <= d < 10
    ensures IsDigit(c)
  {
    ('0' as int + d) as char
  }

  function DigitValue(c: char): (d: nat)
    requires IsDigit(c)
    ensures d < 10
  {
    c as int - '0' as int
  }

  /** Decimal digits of a natural number, most significant first, without leading zeros. */
  function NatToString(n: nat): (s: string)
    ensures |s| > 0 && AllDigits(s)
    ensures n > 0 ==> s[0] != '0'
  {
    if n < 10 then [DigitChar(n)] else NatToString(n / 10) + [DigitChar(n % 10)]
  }

  /** Java's decimal rendering of an integer (what `int + String` produces). */
  function IntToString(i: int): (s: string)
    ensures '|' !in s
    ensures |s| > 0 && (s[0] == '-' <==> i < 0)
    ensures AllDigits(if i < 0 then s[1..] else s)
  {
    if i < 0 then "-" + NatToString(-i) else NatToString(i)
  }

  /** The value of a string of decimal digits, read left to right. */
  function DigitsValue(s: string): nat
    requires AllDigits(s)
  {
    if |s| == 0 then 0 else DigitsValue(s[..|s| - 1]) * 10 + DigitValue(s[|s| - 1])
  }

  /**
   * Java's `Integer.parseInt(s)`: an optional sign followed by at least one
   * digit, whose value fits a Java `int`; anything else is a
   * `NumberFormatException`, here `None`.
   */
  function ParseInt(s: string): (r: Option<int>)
    ensures r.Some? ==> IntMin <= r.value <= IntMax
    ensures r.Some? ==> |s| > 0 && AllDigits(if s[0] == '-' || s[0] == '+' then s[1..] else s)
    ensures r.Some? ==> |s| > (if s[0] == '-' || s[0] == '+' then 1 else 0)
  {
    if |s| == 0 then None
    else if s[0] == '-' || s[0] == '+' then
      if |s| == 1 || !AllDigits(s[1..]) then None
      else
        var v: int := if s[0] == '-' then -(DigitsValue(s[1..]) as int) else DigitsValue(s[1..]);
        if IntMin <= v <= IntMax then Some(v) else None
    else if !AllDigits(s) then None
    else if DigitsValue(s) <= IntMax then Some(DigitsValue(s))
    else None
  }

  /**
   * `s.split("\\|")[0]`: the text before the first bar, or all of `s` when it
   * has none. (When `s` holds nothing but bars Java's `split` returns an empty
   * array and the indexing throws; this gives the empty text, which
   * `ParseInt` refuses as well.)
   */
  function FirstField(s: string): (f: string)
    ensures |f| <= |s| && f == s[..|f|]
    ensures '|' !in f
    ensures |f| < |s| ==> s[|f|] == '|'
  {
    if |s| == 0 || s[0] == '|' then [] else [s[0]] + FirstField(s[1..])
  }

  /** The entry listed for an account. */
  function FormatEntry(id: int, name: string): string
  {
    IntToString(id) + "|" + name
  }

  /** The account id that choosing `entry` selects, or `None` when `parseInt` throws. */
  function EntryId(entry: string): Option<int>
  {
    ParseInt(FirstField(entry))
  }

  /** Reading back the digits of a number gives the number. */
  lemma {:induction false} DigitsRoundTrip(n: nat)
    ensures DigitsValue(NatToString(n)) == n
  {
    if n >= 10 {
      var s := NatToString(n);
      assert s[..|s| - 1] == NatToString(n / 10);
      DigitsRoundTrip(n / 10);
    }
  }

  /** The first field of a text with a bar is what precedes its first bar. */
  lemma {:induction false} FirstFieldBeforeBar(p: string, rest: string)
    requires '|' !in p
    ensures FirstField(p + "|" + rest) == p
  {
    if |p| > 0 {
      assert p[0] in p;
      assert (p + "|" + rest)[1..] == p[1..] + "|" + rest;
      FirstFieldBeforeBar(p[1..], rest);
    }
  }

  /** Parsing the id back out of an account's entry gives its id, whatever its name holds (bars included). */
  lemma EntryRoundTrip(id: int, name: string)
    requires IntMin <= id <= IntMax
    ensures EntryId(FormatEntry(id, name)) == Some(id)
  {
    var digits := if id < 0 then NatToString(-id) else NatToString(id);
    FirstFieldBeforeBar(IntToString(id), name);
    DigitsRoundTrip(if id < 0 then -id else id);
    if id < 0 {
      assert IntToString(id)[1..] == digits;
    } else {
      assert !IsDigit('-') && !IsDigit('+');
      assert IsDigit(digits[0]);
    }
  }
}
