/** The pieces of the JavaScript runtime's text and number handling that the web
    app relies on: `parseInt(s, 10)`, `Number.prototype.toString()` on integers,
    `String.prototype.padStart(2, '0')`, `includes`, `split`, `trim`, `substring`
    and `replace` with a fixed character. Strings are sequences of Unicode scalar
    values, so lengths, positions and character order agree with JavaScript's
    UTF-16 code units on text of the Basic Multilingual Plane, which includes
    the ASCII dates and times the app measures and slices. */
module JsText {

  datatype Option<+T> = None | Some(value: T)

  // ---------------------------------------------------------------------------
  // Characters

  predicate IsDigit(c: char) { '0' <= c <= '9' }

  predicate AllDigits(s: string) { forall i :: 0 <= i < |s| ==> IsDigit(s[i]) }

  /** The characters `trim` and `parseInt` skip: WhiteSpace and LineTerminator of
      ECMAScript (the Unicode `Zs` category plus TAB, VT, FF, BOM, LF, CR, LS, PS). */
  predicate IsJsWhitespace(c: char) {
    c == '\t' || c == '\n' || c == '\U{B}' || c == '\U{C}' || c == '\r' || c == ' '
    || c == '\U{A0}' || c == '\U{1680}' || ('\U{2000}' <= c <= '\U{200A}')
    || c == '\U{2028}' || c == '\U{2029}' || c == '\U{202F}' || c == '\U{205F}'
    || c == '\U{3000}' || c == '\U{FEFF}'
  }

  function DigitValue(c: char): (d: nat)
    requires IsDigit(c)
    ensures d < 10
  {
    (c as int) - ('0' as int)
  }

  function DigitChar(d: nat): (c: char)
    requires d < 10
    ensures IsDigit(c) && DigitValue(c) == d
  {
    (('0' as int) + d) as char
  }

  // ---------------------------------------------------------------------------
  // Decimal numerals

  /** Value of a string of decimal digits, most significant first. */
  function DigitsValue(s: string): nat
    requires AllDigits(s)
    decreases |s|
  {
    if s == [] then 0 else 10 * DigitsValue(s[..|s| - 1]) + DigitValue(s[|s| - 1])
  }

  /** `n.toString()` for a non-negative integer: shortest decimal numeral. */
  function NatToString(n: nat): (s: string)
    ensures 0 < |s| && AllDigits(s)
    ensures n < 10 <==> |s| == 1
    decreases n
  {
    if n < 10 then [DigitChar(n)] else NatToString(n / 10) + [DigitChar(n % 10)]
  }

  /** `n.toString()` for any integer. */
  function IntToString(n: int): string {
    if n < 0 then "-" + NatToString(-n) else NatToString(n)
  }

  /** `s.padStart(2, '0')`. */
  function PadStart2(s: string): (r: string)
    ensures |r| == if |s| < 2 then 2 else |s|
    ensures |s| >= 2 ==> r == s
    ensures |s| < 2 ==> r[2 - |s|..] == s && forall i :: 0 <= i < 2 - |s| ==> r[i] == '0'
  {
    if |s| >= 2 then s else if |s| == 1 then "0" + s else "00"
  }

  /** `String(n).padStart(2, '0')` for the month and day fields of a date. */
  function Pad2(n: int): string {
    PadStart2(IntToString(n))
  }

  lemma {:induction false} DigitsValueOfNatToString(n: nat)
    ensures DigitsValue(NatToString(n)) == n
    decreases n
  {
    if n >= 10 {
      var s := NatToString(n);
      assert s[..|s| - 1] == NatToString(n / 10);
      DigitsValueOfNatToString(n / 10);
    }
  }

  /** A number from 10 to 99 prints as two digits, one below 10 as one digit. */
  lemma Pad2OfSmall(n: nat)
    requires n < 100
    ensures Pad2(n) == [DigitChar(n / 10), DigitChar(n % 10)]
  {
    if n >= 10 {
      assert NatToString(n / 10) == [DigitChar(n / 10)];
    }
  }

  /** `parseInt` reads a padded two-digit field back. */
  lemma ParseIntOfPad2(n: nat)
    requires n < 100
    ensures |Pad2(n)| == 2 && AllDigits(Pad2(n)) && ParseInt(Pad2(n)) == Some(n)
  {
    if n >= 10 {
      assert NatToString(n / 10) == [DigitChar(n / 10)];
      assert Pad2(n) == NatToString(n);
      ParseIntOfNatToString(n);
    } else {
      var s := Pad2(n);
      assert s == ['0', DigitChar(n)];
      assert s[..1] == ['0'] && ['0'][..0] == [];
      assert DigitsValue(s) == n;
      ParseIntOfDigits(s);
    }
  }

  /** Years 1000 to 9999 print as exactly four digits. */
  lemma {:induction false} NatToStringFourDigits(n: nat)
    requires 1000 <= n <= 9999
    ensures |NatToString(n)| == 4
  {
    assert NatToString(n / 1000) == [DigitChar(n / 1000)];
    assert NatToString(n / 100) == NatToString(n / 1000) + [DigitChar((n / 100) % 10)];
    assert NatToString(n / 10) == NatToString(n / 100) + [DigitChar((n / 10) % 10)];
  }

  // ---------------------------------------------------------------------------
  // parseInt(s, 10)

  function TrimStart(s: string): (r: string)
    ensures |r| <= |s| && r == s[|s| - |r|..]
    ensures |r| > 0 ==> !IsJsWhitespace(r[0])
    ensures forall i :: 0 <= i < |s| - |r| ==> IsJsWhitespace(s[i])
    decreases |s|
  {
    if |s| > 0 && IsJsWhitespace(s[0]) then TrimStart(s[1..]) else s
  }

  function TrimEnd(s: string): (r: string)
    ensures |r| <= |s| && r == s[..|r|]
    ensures |r| > 0 ==> !IsJsWhitespace(r[|r| - 1])
    ensures forall i :: |r| <= i < |s| ==> IsJsWhitespace(s[i])
    decreases |s|
  {
    if |s| > 0 && IsJsWhitespace(s[|s| - 1]) then TrimEnd(s[..|s| - 1]) else s
  }

  /** `s.trim()`. */
  function Trim(s: string): string {
    TrimEnd(TrimStart(s))
  }

  /** The longest prefix of `s` made of decimal digits. */
  function DigitPrefix(s: string): (r: string)
    ensures AllDigits(r) && |r| <= |s| && r == s[..|r|]
    ensures |r| < |s| ==> !IsDigit(s[|r|])
    decreases |s|
  {
    if |s| > 0 && IsDigit(s[0]) then [s[0]] + DigitPrefix(s[1..]) else []
  }

  /** `parseInt(s, 10)`: skips leading white space, reads an optional sign and
      then as many decimal digits as there are; `None` stands for `NaN` (no digit). */
  function ParseInt(s: string): Option<int>
    decreases |s|
  {
    if |s| > 0 && IsJsWhitespace(s[0]) then ParseInt(s[1..]) else ParseNumeral(s)
  }

  /** The rest of `parseInt` once the leading white space is gone. */
  function ParseNumeral(t: string): Option<int> {
    var negative := |t| > 0 && t[0] == '-';
    var body := if |t| > 0 && (t[0] == '-' || t[0] == '+') then t[1..] else t;
    var digits := DigitPrefix(body);
    var magnitude: int := if digits == [] then 0 else DigitsValue(digits);
    if digits == [] then None
    else if negative then Some(-magnitude)
    else Some(magnitude)
  }

  lemma DigitPrefixOfDigits(s: string)
    requires AllDigits(s)
    ensures DigitPrefix(s) == s
  {
  }

  /** `trim` leaves a string alone when it starts and ends with a visible character. */
  lemma TrimOfUnpadded(s: string)
    requires |s| > 0 && !IsJsWhitespace(s[0]) && !IsJsWhitespace(s[|s| - 1])
    ensures Trim(s) == s
  {
  }

  /** `trim` keeps every character that is not white space. */
  lemma TrimKeeps(s: string, i: nat)
    requires i < |s| && !IsJsWhitespace(s[i])
    ensures s[i] in Trim(s)
  {
    var t := TrimStart(s);
    assert t[i - (|s| - |t|)] == s[i];
    var u := TrimEnd(t);
    assert u[i - (|s| - |t|)] == s[i];
  }

  /** A non-empty numeral parses to its value, so `parseInt` undoes `toString`. */
  lemma ParseIntOfDigits(s: string)
    requires AllDigits(s) && |s| > 0
    ensures ParseInt(s) == Some(DigitsValue(s))
  {
    assert IsDigit(s[0]);
    DigitPrefixOfDigits(s);
  }

  /** A string that starts with anything but white space, a sign or a digit is NaN. */
  lemma ParseIntOfNonNumeral(s: string)
    requires |s| > 0 && !IsJsWhitespace(s[0]) && !IsDigit(s[0]) && s[0] != '+' && s[0] != '-'
    ensures ParseInt(s).None?
  {
  }

  lemma ParseIntOfNatToString(n: nat)
    ensures ParseInt(NatToString(n)) == Some(n)
  {
    ParseIntOfDigits(NatToString(n));
    DigitsValueOfNatToString(n);
  }

  // ---------------------------------------------------------------------------
  // Substrings, search and replacement

  predicate StartsWith(s: string, prefix: string) {
    |prefix| <= |s| && s[..|prefix|] == prefix
  }

  /** `s.includes(sub)`. */
  predicate Includes(s: string, sub: string)
    decreases |s|
  {
    StartsWith(s, sub) || (|s| > 0 && Includes(s[1..], sub))
  }

  lemma {:induction false} IncludesAt(s: string, sub: string, i: nat)
    requires i + |sub| <= |s| && s[i..i + |sub|] == sub
    ensures Includes(s, sub)
    decreases i
  {
    if i > 0 {
      assert s[1..][i - 1..i - 1 + |sub|] == s[i..i + |sub|];
      IncludesAt(s[1..], sub, i - 1);
    }
  }

  /** The three pieces of a concatenation are its slices. */
  lemma ConcatSlices(a: string, b: string, c: string)
    ensures var s := a + b + c;
      s[..|a|] == a && s[|a|..|a| + |b|] == b && s[|a| + |b|..] == c
  {
  }

  /** `s.substring(from, to)` and `a.slice(from, to)` for `0 <= from <= to`:
      both bounds are clamped to the length. */
  function Slice<T>(s: seq<T>, from: nat, to: nat): (r: seq<T>)
    ensures from <= to <= |s| ==> r == s[from..to]
    ensures from <= |s| <= to ==> r == s[from..]
    ensures |s| <= from ==> r == []
  {
    if from >= |s| || to <= from then [] else s[from..if to < |s| then to else |s|]
  }

  /** `s.replace(/[…]/g, '')`: every character of `drop` removed. */
  function RemoveChars(s: string, drop: set<char>): (r: string)
    ensures |r| <= |s|
    ensures forall i :: 0 <= i < |r| ==> r[i] !in drop
    ensures (forall i :: 0 <= i < |s| ==> s[i] !in drop) ==> r == s
    decreases |s|
  {
    if s == [] then []
    else if s[0] in drop then RemoveChars(s[1..], drop)
    else [s[0]] + RemoveChars(s[1..], drop)
  }

  /** The characters kept are exactly those of `s` outside `drop`. */
  lemma {:induction false} RemoveCharsMembers(s: string, drop: set<char>)
    ensures forall c :: c in RemoveChars(s, drop) <==> c in s && c !in drop
    decreases |s|
  {
    if s != [] {
      RemoveCharsMembers(s[1..], drop);
      assert s == [s[0]] + s[1..];
    }
  }

  lemma {:induction false} RemoveCharsAppend(a: string, b: string, drop: set<char>)
    ensures RemoveChars(a + b, drop) == RemoveChars(a, drop) + RemoveChars(b, drop)
    decreases |a|
  {
    if a != [] {
      assert (a + b)[0] == a[0];
      assert (a + b)[1..] == a[1..] + b;
      RemoveCharsAppend(a[1..], b, drop);
      if a[0] !in drop {
        assert RemoveChars(a + b, drop) == [a[0]] + (RemoveChars(a[1..], drop) + RemoveChars(b, drop));
      }
    } else {
      assert a + b == b;
    }
  }

  /** Decimal digits contain no colon to remove. */
  lemma RemoveColonsOfDigits(s: string)
    requires AllDigits(s)
    ensures RemoveChars(s, {':'}) == s
  {
    assert forall i :: 0 <= i < |s| ==> s[i] != ':';
  }

  /** Removing the same characters a second time changes nothing. */
  lemma RemoveCharsIdempotent(s: string, drop: set<char>)
    ensures RemoveChars(RemoveChars(s, drop), drop) == RemoveChars(s, drop)
  {
  }

  /** A dropped character between two strings leaves nothing behind. */
  lemma RemoveCharsAround(a: string, c: char, b: string, drop: set<char>)
    requires c in drop
    ensures RemoveChars(a + [c] + b, drop) == RemoveChars(a, drop) + RemoveChars(b, drop)
  {
    assert a + [c] + b == a + ([c] + b);
    RemoveCharsAppend(a, [c] + b, drop);
    assert ([c] + b)[1..] == b;
  }

  /** `s.replace(c, '')` with a one-character string pattern: only the first
      occurrence is removed. */
  function RemoveFirst(s: string, c: char): (r: string)
    ensures c !in s ==> r == s
    ensures c in s ==> |r| == |s| - 1
    decreases |s|
  {
    if s == [] then []
    else if s[0] == c then s[1..]
    else [s[0]] + RemoveFirst(s[1..], c)
  }

  /** Removing the first `c` from `a + [c] + b` when `a` holds no `c` leaves `a + b`. */
  lemma {:induction false} RemoveFirstAfter(a: string, c: char, b: string)
    requires c !in a
    ensures RemoveFirst(a + [c] + b, c) == a + b
    decreases |a|
  {
    var s := a + [c] + b;
    if a == [] {
      assert s == [c] + b;
    } else {
      assert a[0] in a;
      assert s[0] == a[0] != c;
      assert s[1..] == a[1..] + [c] + b;
      RemoveFirstAfter(a[1..], c, b);
      assert a + b == [a[0]] + (a[1..] + b);
    }
  }

  /** `s.split(c)[0]`: the text before the first `c`, or all of `s`. */
  function BeforeFirst(s: string, c: char): (r: string)
    ensures |r| <= |s| && r == s[..|r|] && c !in r
    ensures |r| < |s| ==> s[|r|] == c
    decreases |s|
  {
    if s == [] || s[0] == c then [] else [s[0]] + BeforeFirst(s[1..], c)
  }

  /** `s.split(sep)` for a non-empty separator: the pieces between the
      non-overlapping occurrences of `sep`, scanning from the left. */
  function Split(s: string, sep: string): (parts: seq<string>)
    requires |sep| > 0
    ensures |parts| > 0
    decreases |s|
  {
    if |s| < |sep| then [s]
    else if s[..|sep|] == sep then [""] + Split(s[|sep|..], sep)
    else
      var rest := Split(s[1..], sep);
      [[s[0]] + rest[0]] + rest[1..]
  }

  /** `parts.join(sep)`. */
  function Join(parts: seq<string>, sep: string): string
    decreases |parts|
  {
    if |parts| == 0 then ""
    else if |parts| == 1 then parts[0]
    else parts[0] + sep + Join(parts[1..], sep)
  }

  lemma {:induction false} JoinSplit(s: string, sep: string)
    requires |sep| > 0
    ensures Join(Split(s, sep), sep) == s
    decreases |s|
  {
    if |s| < |sep| {
    } else if s[..|sep|] == sep {
      var rest := Split(s[|sep|..], sep);
      JoinSplit(s[|sep|..], sep);
      assert Split(s, sep) == [""] + rest;
      assert ([""] + rest)[1..] == rest;
      assert s == sep + s[|sep|..];
    } else {
      var rest := Split(s[1..], sep);
      JoinSplit(s[1..], sep);
      var parts := [[s[0]] + rest[0]] + rest[1..];
      assert parts[1..] == rest[1..];
      if |rest| == 1 {
        assert Join(parts, sep) == [s[0]] + rest[0];
      } else {
        assert Join(parts, sep) == [s[0]] + (rest[0] + sep + Join(rest[1..], sep));
      }
      assert s == [s[0]] + s[1..];
    }
  }
}
