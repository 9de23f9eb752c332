/** The few Python built-ins the gateway leans on, stated over Dafny strings
    and sequences: `str.isspace`, `str.rstrip()`, `str.strip()`,
    `str.split(sep)` for a one-character separator, `sep.join(...)`, `str(int)`,
    `int(str)` in base 10, and list subscripting with negative indices. */
module Py {

  datatype Option<T> = None | Some(value: T)

  /** Python's `str.isspace` for one character (the Unicode whitespace set). */
  predicate IsSpace(c: char) {
    var n := c as int;
    || 0x09 <= n <= 0x0D
    || 0x1C <= n <= 0x20
    || n == 0x85 || n == 0xA0 || n == 0x1680
    || 0x2000 <= n <= 0x200A
    || n == 0x2028 || n == 0x2029 || n == 0x202F || n == 0x205F || n == 0x3000
  }

  /** The longest prefix of `s` that does not end in a `space` character. */
  function TrimEnd(s: string, space: char -> bool): (r: string)
    ensures r <= s
    ensures |r| == 0 || !space(r[|r| - 1])
    ensures forall i :: |r| <= i < |s| ==> space(s[i])
    decreases |s|
  {
    if |s| > 0 && space(s[|s| - 1]) then TrimEnd(s[..|s| - 1], space) else s
  }

  /** The longest suffix of `s` that does not start with a `space` character. */
  function TrimStart(s: string, space: char -> bool): (r: string)
    ensures |r| <= |s| && r == s[|s| - |r|..]
    ensures |r| == 0 || !space(r[0])
    ensures forall i :: 0 <= i < |s| - |r| ==> space(s[i])
    decreases |s|
  {
    if |s| > 0 && space(s[0]) then TrimStart(s[1..], space) else s
  }

  /** Trimming removes exactly a trailer of `space` characters from text that
      does not itself end in one. */
  lemma {:induction false} TrimEndTrailer(text: string, trailer: string, space: char -> bool)
    requires |text| > 0 ==> !space(text[|text| - 1])
    requires forall i :: 0 <= i < |trailer| ==> space(trailer[i])
    ensures TrimEnd(text + trailer, space) == text
    decreases |trailer|
  {
    if |trailer| > 0 {
      var s := text + trailer;
      assert s[..|s| - 1] == text + trailer[..|trailer| - 1];
      TrimEndTrailer(text, trailer[..|trailer| - 1], space);
    }
  }

  /** Trimming removes exactly a leader of `space` characters from text that
      does not itself start with one. */
  lemma {:induction false} TrimStartLeader(leader: string, text: string, space: char -> bool)
    requires |text| > 0 ==> !space(text[0])
    requires forall i :: 0 <= i < |leader| ==> space(leader[i])
    ensures TrimStart(leader + text, space) == text
    decreases |leader|
  {
    if |leader| > 0 {
      var s := leader + text;
      assert s[1..] == leader[1..] + text;
      TrimStartLeader(leader[1..], text, space);
    }
  }

  /** `s.rstrip()`: the longest prefix of `s` that does not end in whitespace. */
  function RStrip(s: string): (r: string)
    ensures r <= s
    ensures |r| == 0 || !IsSpace(r[|r| - 1])
    ensures forall i :: |r| <= i < |s| ==> IsSpace(s[i])
  {
    TrimEnd(s, IsSpace)
  }

  /** `sep.join(parts)`. */
  function Join(sep: string, parts: seq<string>): string
    decreases |parts|
  {
    if |parts| == 0 then ""
    else if |parts| == 1 then parts[0]
    else parts[0] + sep + Join(sep, parts[1..])
  }

  /** `s.split(sep)` for a one-character separator: every occurrence of `sep`
      cuts, empty fields are kept, and there is always at least one field. */
  function Split(s: string, sep: char): (r: seq<string>)
    ensures |r| >= 1
    ensures forall i :: 0 <= i < |r| ==> sep !in r[i]
    ensures Join([sep], r) == s
    decreases |s|
  {
    if |s| == 0 then [""]
    else
      var rest := Split(s[1..], sep);
      if s[0] == sep then [""] + rest
      else [[s[0]] + rest[0]] + rest[1..]
  }

  /** Splitting a string with no separator in it gives that string alone. */
  lemma {:induction false} SplitNoSeparator(a: string, sep: char)
    requires sep !in a
    ensures Split(a, sep) == [a]
    decreases |a|
  {
    if |a| > 0 {
      assert sep !in a[1..];
      SplitNoSeparator(a[1..], sep);
    }
  }

  /** The first separator ends the first field. */
  lemma {:induction false} SplitAtFirstSeparator(a: string, sep: char, b: string)
    requires sep !in a
    ensures Split(a + [sep] + b, sep) == [a] + Split(b, sep)
    decreases |a|
  {
    if |a| == 0 {
      assert a + [sep] + b == [sep] + b;
      assert ([sep] + b)[1..] == b;
    } else {
      var s := a + [sep] + b;
      assert s[1..] == a[1..] + [sep] + b;
      assert sep !in a[1..];
      SplitAtFirstSeparator(a[1..], sep, b);
      assert [a[0]] + a[1..] == a;
    }
  }

  /** `split` undoes `join` when no field contains the separator. */
  lemma {:induction false} SplitJoin(parts: seq<string>, sep: char)
    requires |parts| >= 1
    requires forall i :: 0 <= i < |parts| ==> sep !in parts[i]
    ensures Split(Join([sep], parts), sep) == parts
    decreases |parts|
  {
    if |parts| == 1 {
      SplitNoSeparator(parts[0], sep);
    } else {
      SplitAtFirstSeparator(parts[0], sep, Join([sep], parts[1..]));
      SplitJoin(parts[1..], sep);
      assert [parts[0]] + parts[1..] == parts;
    }
  }

  predicate IsDigit(c: char) {
    '0' <= c <= '9'
  }

  function DigitValue(c: char): nat
    requires IsDigit(c)
  {
    c as int - '0' as int
  }

  function DigitChar(d: nat): (c: char)
    requires d < 10
    ensures IsDigit(c) && DigitValue(c) == d
  {
    ('0' as int + d) as char
  }

  /** The digit run Python's `int(s)` accepts after its sign: ASCII digits,
      with single underscores allowed between two digits. */
  predicate DigitRun(s: string) {
    && |s| > 0
    && IsDigit(s[0])
    && IsDigit(s[|s| - 1])
    && (forall i :: 0 <= i < |s| ==> IsDigit(s[i]) || s[i] == '_')
    && (forall i :: 0 <= i < |s| - 1 ==> s[i] == '_' ==> s[i + 1] != '_')
  }

  /** The decimal value of digits and underscores, underscores ignored. */
  function DigitRunValue(s: string): nat
    requires forall i :: 0 <= i < |s| ==> IsDigit(s[i]) || s[i] == '_'
    decreases |s|
  {
    if |s| == 0 then 0
    else
      var init := s[..|s| - 1];
      assert forall i :: 0 <= i < |init| ==> init[i] == s[i];
      if s[|s| - 1] == '_' then DigitRunValue(init)
      else 10 * DigitRunValue(init) + DigitValue(s[|s| - 1])
  }

  /** CPython's default `sys.get_int_max_str_digits()` from 3.7.14, 3.8.14
      and 3.9.14 on: `int(s)` raises `ValueError` on a digit run holding more
      digits, and `str(i)` on an integer that has more. */
  const MaxStrDigits: nat := 4300

  /** The number of digits in `s`: underscores do not count, leading zeros do. */
  function DigitCount(s: string): (r: nat)
    ensures r <= |s|
    decreases |s|
  {
    if |s| == 0 then 0
    else DigitCount(s[..|s| - 1]) + (if IsDigit(s[|s| - 1]) then 1 else 0)
  }

  /** A string of plain digits counts every character. */
  lemma {:induction false} DigitsCount(s: string)
    requires forall i :: 0 <= i < |s| ==> IsDigit(s[i])
    ensures DigitCount(s) == |s|
    decreases |s|
  {
    if |s| > 0 {
      var init := s[..|s| - 1];
      assert forall i :: 0 <= i < |init| ==> init[i] == s[i];
      DigitsCount(init);
    }
  }

  function Pow10(k: nat): (r: nat)
    ensures r >= 1
  {
    if k == 0 then 1 else 10 * Pow10(k - 1)
  }

  lemma {:induction false} Pow10Monotone(j: nat, k: nat)
    requires j <= k
    ensures Pow10(j) <= Pow10(k)
    decreases k
  {
    if j < k {
      Pow10Monotone(j, k - 1);
    }
  }

  /** A run with `k` digits has a value below `10^k`. */
  lemma {:induction false} DigitRunValueBound(s: string)
    requires forall i :: 0 <= i < |s| ==> IsDigit(s[i]) || s[i] == '_'
    ensures DigitRunValue(s) < Pow10(DigitCount(s))
    decreases |s|
  {
    if |s| > 0 {
      var init := s[..|s| - 1];
      assert forall i :: 0 <= i < |init| ==> init[i] == s[i];
      DigitRunValueBound(init);
    }
  }

  /** A number below `10^k` prints in at most `k` digits. */
  lemma {:induction false} NatToStringLength(n: nat, k: nat)
    requires 1 <= k && n < Pow10(k)
    ensures |NatToString(n)| <= k
    decreases n
  {
    if n >= 10 {
      assert Pow10(1) == 10;
      assert k >= 2;
      assert n / 10 < Pow10(k - 1);
      NatToStringLength(n / 10, k - 1);
    }
  }

  /** `str(n)` for a natural number: decimal, no leading zero. */
  function NatToString(n: nat): (r: string)
    ensures |r| >= 1
    ensures forall i :: 0 <= i < |r| ==> IsDigit(r[i])
    ensures r[0] == '0' ==> n == 0 && r == "0"
    decreases n
  {
    if n < 10 then [DigitChar(n)] else NatToString(n / 10) + [DigitChar(n % 10)]
  }

  /** `str(i)` for an integer. */
  function IntToString(i: int): (r: string)
    ensures |r| >= 1
    ensures i < 0 <==> r[0] == '-'
    ensures i >= 0 ==> IsDigit(r[0])
    ensures forall k :: 0 < k < |r| ==> IsDigit(r[k])
    ensures i >= 0 && r[0] == '0' ==> r == "0"
    ensures i < 0 ==> |r| >= 2 && r[1] != '0'
  {
    if i < 0 then "-" + NatToString(-i) else NatToString(i)
  }

  /** The whitespace `int()` skips around its digits: the ASCII characters
      tab, line feed, vertical tab, form feed, carriage return and space, and
      every non-ASCII `str.isspace` character. The ASCII separators
      U+001C..U+001F count for `str.isspace` but not here. */
  predicate IntSpace(c: char) {
    IsSpace(c) && !(0x1C <= c as int <= 0x1F)
  }

  /** The characters `int()` accepts between that whitespace. */
  predicate IntChar(c: char) {
    IsDigit(c) || c == '+' || c == '-' || c == '_'
  }

  /** The text `int()` reads: `s` without its `int()` whitespace at either end. */
  function IntStrip(s: string): string {
    TrimStart(TrimEnd(s, IntSpace), IntSpace)
  }

  /** Every character of `s` is `int()` whitespace or survives `IntStrip`. */
  lemma IntStripCovers(s: string)
    ensures forall i :: 0 <= i < |s| ==> IntSpace(s[i]) || s[i] in IntStrip(s)
  {
    var leader, trailer := IntStripParts(s);
    var core := IntStrip(s);
    forall i | 0 <= i < |s| && !IntSpace(s[i])
      ensures s[i] in core
    {
      if |leader| <= i < |leader| + |core| {
        assert s[i] == core[i - |leader|];
      }
    }
  }

  /** `IntStrip` removes the given whitespace on both sides and nothing else. */
  lemma IntStripFrame(leader: string, t: string, trailer: string)
    requires forall i :: 0 <= i < |leader| ==> IntSpace(leader[i])
    requires forall i :: 0 <= i < |trailer| ==> IntSpace(trailer[i])
    requires |t| > 0 && !IntSpace(t[0]) && !IntSpace(t[|t| - 1])
    ensures IntStrip(leader + t + trailer) == t
  {
    assert leader + t + trailer == (leader + t) + trailer;
    TrimEndTrailer(leader + t, trailer, IntSpace);
    TrimStartLeader(leader, t, IntSpace);
  }

  /** Text made of `int()` whitespace alone is rejected. */
  lemma IntStripBlank(s: string)
    ensures (forall i :: 0 <= i < |s| ==> IntSpace(s[i])) ==> ParseSigned(IntStrip(s)).None?
  {
    if forall i :: 0 <= i < |s| ==> IntSpace(s[i]) {
      var tail := TrimEnd(s, IntSpace);
      assert |tail| == 0;
    }
  }

  /** Only `int()` whitespace and the characters of a signed digit run are
      accepted. */
  lemma IntStripChars(s: string)
    ensures ParseSigned(IntStrip(s)).Some? ==> forall i :: 0 <= i < |s| ==> IntSpace(s[i]) || IntChar(s[i])
  {
    IntStripCovers(s);
  }

  /** A bare digit run is read as its value. */
  lemma IntStripRun(s: string)
    ensures DigitRun(s) ==>
              ParseSigned(IntStrip(s)) == if DigitCount(s) <= MaxStrDigits then Some(DigitRunValue(s)) else None
  {
    if DigitRun(s) {
      IntStripFrame("", s, "");
      assert "" + s + "" == s;
      ParseSignedRun("", s);
      assert "" + s == s;
    }
  }

  /** A signed digit run reads as its value. */
  lemma ParseSignedRun(sign: string, digits: string)
    requires sign == "" || sign == "+" || sign == "-"
    requires DigitRun(digits)
    ensures ParseSigned(sign + digits)
         == if DigitCount(digits) <= MaxStrDigits
            then Some(if sign == "-" then -(DigitRunValue(digits) as int) else DigitRunValue(digits))
            else None
  {
    var t := sign + digits;
    if sign == "" {
      assert t == digits;
      assert !(t[0] == '+' || t[0] == '-');
    } else {
      assert t[0] == sign[0] && t[1..] == digits;
    }
  }

  /** `int(s)` in base 10: `int()` whitespace at either end is ignored, then
      one optional sign and a digit run of at most `MaxStrDigits` digits;
      `None` is the `ValueError` Python raises. */
  function ParseInt(s: string): (r: Option<int>)
    ensures r.Some? ==> forall i :: 0 <= i < |s| ==> IntSpace(s[i]) || IntChar(s[i])
    ensures (forall i :: 0 <= i < |s| ==> IntSpace(s[i])) ==> r.None?
    ensures DigitRun(s) ==> r == if DigitCount(s) <= MaxStrDigits then Some(DigitRunValue(s)) else None
  {
    IntStripChars(s);
    IntStripBlank(s);
    IntStripRun(s);
    ParseSigned(IntStrip(s))
  }

  /** `int` on text with no surrounding whitespace. */
  function ParseSigned(t: string): (r: Option<int>)
    ensures r.Some? ==> |t| > 0 && forall c :: c in t ==> IntChar(c)
  {
    var signed := |t| > 0 && (t[0] == '+' || t[0] == '-');
    var body := if signed then t[1..] else t;
    if !DigitRun(body) || DigitCount(body) > MaxStrDigits then None
    else
      var magnitude: int := DigitRunValue(body);
      Some(if signed && t[0] == '-' then -magnitude else magnitude)
  }

  /** `int()` ignores any run of its whitespace around a signed digit run,
      and fails when the run has more than `MaxStrDigits` digits. */
  lemma ParseIntSkipsSpace(leader: string, sign: string, digits: string, trailer: string)
    requires forall i :: 0 <= i < |leader| ==> IntSpace(leader[i])
    requires forall i :: 0 <= i < |trailer| ==> IntSpace(trailer[i])
    requires sign == "" || sign == "+" || sign == "-"
    requires DigitRun(digits)
    ensures ParseInt(leader + sign + digits + trailer)
         == if DigitCount(digits) <= MaxStrDigits
            then Some(if sign == "-" then -(DigitRunValue(digits) as int) else DigitRunValue(digits))
            else None
  {
    var t := sign + digits;
    assert leader + sign + digits + trailer == leader + t + trailer;
    assert t[|t| - 1] == digits[|digits| - 1];
    IntStripFrame(leader, t, trailer);
    ParseSignedRun(sign, digits);
  }

  /** `int()` fails on any text holding one of the ASCII separators
      U+001C..U+001F, although `str.isspace` counts them as whitespace. */
  lemma ParseIntRejectsSeparator(s: string, k: nat)
    requires k < |s| && 0x1C <= s[k] as int <= 0x1F
    ensures IsSpace(s[k]) && ParseInt(s).None?
  {
    assert !IntSpace(s[k]) && !IntChar(s[k]);
  }

  /** Text made of `int()` whitespace alone. */
  predicate IntBlank(s: string) {
    forall i :: 0 <= i < |s| ==> IntSpace(s[i])
  }

  /** A base-10 integer literal as `int()` reads one: `int()` whitespace, one
      optional sign, a digit run of at most `MaxStrDigits` digits, `int()`
      whitespace. */
  ghost predicate IntLiteral(s: string) {
    exists leader, sign, digits, trailer ::
      && s == leader + sign + digits + trailer
      && IntBlank(leader) && IntBlank(trailer)
      && (sign == "" || sign == "+" || sign == "-")
      && DigitRun(digits) && DigitCount(digits) <= MaxStrDigits
  }

  /** What `TrimEnd` removes is a trailer of `space` characters. */
  lemma TrimEndParts(s: string, space: char -> bool) returns (trailer: string)
    ensures s == TrimEnd(s, space) + trailer
    ensures forall i :: 0 <= i < |trailer| ==> space(trailer[i])
  {
    var r := TrimEnd(s, space);
    trailer := s[|r|..];
    assert forall i :: 0 <= i < |trailer| ==> trailer[i] == s[|r| + i];
    assert r == s[..|r|];
  }

  /** What `TrimStart` removes is a leader of `space` characters. */
  lemma TrimStartParts(s: string, space: char -> bool) returns (leader: string)
    ensures s == leader + TrimStart(s, space)
    ensures forall i :: 0 <= i < |leader| ==> space(leader[i])
  {
    var r := TrimStart(s, space);
    var k := |s| - |r|;
    leader := s[..k];
    assert r == s[k..];
    assert s == s[..k] + s[k..];
    assert forall i :: 0 <= i < |leader| ==> leader[i] == s[i];
  }

  /** `IntStrip` removes an `int()` whitespace leader and trailer. */
  lemma IntStripParts(s: string) returns (leader: string, trailer: string)
    ensures s == leader + IntStrip(s) + trailer
    ensures IntBlank(leader) && IntBlank(trailer)
  {
    var tail := TrimEnd(s, IntSpace);
    trailer := TrimEndParts(s, IntSpace);
    leader := TrimStartParts(tail, IntSpace);
  }

  /** Accepted stripped text is a sign followed by a digit run. */
  lemma ParseSignedParts(t: string) returns (sign: string, digits: string)
    requires ParseSigned(t).Some?
    ensures t == sign + digits
    ensures sign == "" || sign == "+" || sign == "-"
    ensures DigitRun(digits) && DigitCount(digits) <= MaxStrDigits
    ensures ParseSigned(t) == Some(if sign == "-" then -(DigitRunValue(digits) as int) else DigitRunValue(digits))
  {
    if t[0] == '+' || t[0] == '-' {
      sign, digits := t[..1], t[1..];
    } else {
      sign, digits := "", t;
    }
  }

  /** `leader + (sign + digits) + trailer` regrouped. */
  lemma Regroup(leader: string, sign: string, digits: string, trailer: string)
    ensures leader + (sign + digits) + trailer == leader + sign + digits + trailer
  {
  }

  /** `int(s)` succeeds exactly on integer literals: malformed text such as
      `1-2`, `--1`, `1__0`, `_1` or `1 2`, and a run of more than
      `MaxStrDigits` digits, raises `ValueError`. */
  lemma ParseIntExactlyLiterals(s: string)
    ensures ParseInt(s).Some? <==> IntLiteral(s)
  {
    if ParseInt(s).Some? {
      var leader, trailer := IntStripParts(s);
      var sign, digits := ParseSignedParts(IntStrip(s));
      Regroup(leader, sign, digits, trailer);
      assert s == leader + sign + digits + trailer;
    }
    if IntLiteral(s) {
      var leader, sign, digits, trailer :|
        && s == leader + sign + digits + trailer
        && IntBlank(leader) && IntBlank(trailer)
        && (sign == "" || sign == "+" || sign == "-")
        && DigitRun(digits) && DigitCount(digits) <= MaxStrDigits;
      ParseIntSkipsSpace(leader, sign, digits, trailer);
    }
  }

  /** A run of plain digits is a digit run. */
  lemma DigitsAreRun(digits: string)
    requires |digits| > 0 && forall k :: 0 <= k < |digits| ==> IsDigit(digits[k])
    ensures DigitRun(digits)
  {
  }

  lemma {:induction false} NatToStringValue(n: nat)
    ensures DigitRunValue(NatToString(n)) == n
    decreases n
  {
    if n >= 10 {
      var s := NatToString(n / 10);
      var r := s + [DigitChar(n % 10)];
      assert r[..|r| - 1] == s;
      NatToStringValue(n / 10);
    }
  }

  /** `str(i)` is an optional minus sign followed by the digits of `|i|`,
      written with the empty leader and trailer of `ParseIntSkipsSpace`:
      `str` puts no whitespace around the number. */
  lemma IntToStringParts(i: int)
    ensures IntToString(i) == "" + (if i < 0 then "-" else "") + NatToString(if i < 0 then -i else i) + ""
  {
    if i < 0 {
      assert IntToString(i) == "-" + NatToString(-i);
    } else {
      assert IntToString(i) == NatToString(i);
    }
  }

  /** A number `int()` accepts has at most `MaxStrDigits` digits, so `str`
      can print it back. */
  lemma ParseIntPrintable(s: string, n: int)
    requires ParseInt(s) == Some(n)
    ensures |NatToString(if n < 0 then -n else n)| <= MaxStrDigits
  {
    var sign, digits := ParseSignedParts(IntStrip(s));
    DigitRunValueBound(digits);
    Pow10Monotone(DigitCount(digits), MaxStrDigits);
    NatToStringLength(if n < 0 then -n else n, MaxStrDigits);
  }

  /** `int(str(i)) == i` for every integer `str` can print. */
  lemma {:induction false} ParseIntToString(i: int)
    requires |NatToString(if i < 0 then -i else i)| <= MaxStrDigits
    ensures ParseInt(IntToString(i)) == Some(i)
  {
    var magnitude: nat := if i < 0 then -i else i;
    var sign := if i < 0 then "-" else "";
    var digits := NatToString(magnitude);
    IntToStringParts(i);
    DigitsAreRun(digits);
    DigitsCount(digits);
    NatToStringValue(magnitude);
    ParseIntSkipsSpace("", sign, digits, "");
  }

  /** `xs[i]` for a Python list: a negative index counts from the end, and
      `None` is the `IndexError` raised outside `-len(xs) <= i < len(xs)`. */
  function Index<T>(xs: seq<T>, i: int): (r: Option<T>)
    ensures r.Some? <==> -|xs| <= i < |xs|
    ensures 0 <= i < |xs| ==> r == Some(xs[i])
    ensures -|xs| <= i < 0 ==> r == Some(xs[|xs| + i])
  {
    if 0 <= i < |xs| then Some(xs[i])
    else if -|xs| <= i < 0 then Some(xs[|xs| + i])
    else None
  }
}
