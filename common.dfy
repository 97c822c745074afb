/** `toNumber` and `phoneFormat` of apps/web-app/src/shared/utils/common.ts. */
module Common {
  import opened JsText

  /** The argument of `toNumber`: `string | number | null | undefined`. Numbers are
      the integers of the model; fractions and NaN are not modelled. */
  datatype NumberOrText = Num(n: int) | Text(s: string) | Null | Undefined

  predicate IsSignedDecimal(t: string) {
    |t| > 0 && if t[0] == '+' || t[0] == '-' then |t| > 1 && AllDigits(t[1..]) else AllDigits(t)
  }

  function SignedDecimalValue(t: string): int
    requires IsSignedDecimal(t)
  {
    if t[0] == '-' then -(DigitsValue(t[1..]) as int)
    else if t[0] == '+' then DigitsValue(t[1..])
    else DigitsValue(t)
  }

  /** `Number(t) || 0` for the integer numerals `Number` accepts (an optional sign
      and decimal digits, surrounded by white space); an empty or blank string is 0,
      and every string `Number` rejects (NaN) also gives 0. */
  function NumberOrZero(t: string): int {
    var u := Trim(t);
    if u == "" then 0
    else if IsSignedDecimal(u) then SignedDecimalValue(u)
    else 0
  }

  /** `toNumber(v)`: numbers pass through, `null`, `undefined` and `''` are 0, any
      other string is read by `Number` after its commas are removed. */
  function ToNumber(v: NumberOrText): (r: int)
    ensures v.Num? ==> r == v.n
    ensures v == Null || v == Undefined || v == Text("") ==> r == 0
  {
    match v
    case Num(n) => n
    case Null => 0
    case Undefined => 0
    case Text(s) => if s == "" then 0 else NumberOrZero(RemoveChars(s, {','}))
  }

  /** Digits grouped by thousands separators, such as "120,000", read as a number. */
  lemma ToNumberDigitsAndCommas(s: string, k: nat)
    requires forall i :: 0 <= i < |s| ==> IsDigit(s[i]) || s[i] == ','
    requires k < |s| && IsDigit(s[k])
    ensures AllDigits(RemoveChars(s, {','})) && ToNumber(Text(s)) == DigitsValue(RemoveChars(s, {','}))
  {
    var t := RemoveChars(s, {','});
    RemoveCharsMembers(s, {','});
    assert s[k] in s;
    assert s[k] in t;
    assert AllDigits(t) by {
      forall i | 0 <= i < |t| ensures IsDigit(t[i]) {
        assert t[i] in t;
      }
    }
    NumberOrZeroOfDigits(t);
  }

  lemma NumberOrZeroOfDigits(t: string)
    requires |t| > 0 && AllDigits(t)
    ensures NumberOrZero(t) == DigitsValue(t)
  {
    assert IsDigit(t[0]) && IsDigit(t[|t| - 1]);
    TrimOfUnpadded(t);
    assert t[0] != '+' && t[0] != '-';
  }

  /** `toNumber` reads back the decimal string of any integer, the string
      `Number.prototype.toString` prints. */
  lemma ToNumberOfIntToString(n: int)
    ensures ToNumber(Text(IntToString(n))) == n
  {
    var s := IntToString(n);
    var m: nat := if n < 0 then -n else n;
    DigitsValueOfNatToString(m);
    assert forall i :: 0 <= i < |s| ==> s[i] !in {','};
    assert RemoveChars(s, {','}) == s;
    if n < 0 {
      assert s[1..] == NatToString(m);
      NumberOrZeroOfNegative(NatToString(m));
    } else {
      NumberOrZeroOfDigits(s);
    }
  }

  lemma NumberOrZeroOfNegative(t: string)
    requires |t| > 0 && AllDigits(t)
    ensures NumberOrZero("-" + t) == -(DigitsValue(t) as int)
  {
    var u := "-" + t;
    assert u[1..] == t;
    assert !IsJsWhitespace(u[0]) && u[|u| - 1] == t[|t| - 1] && !IsJsWhitespace(u[|u| - 1]);
    TrimOfUnpadded(u);
  }

  /** A character that can occur in a string `Number` accepts after the commas are
      removed: digits, signs, the decimal point, exponent and radix-prefix letters,
      hexadecimal digits, the letters of "Infinity", white space, and the comma. */
  predicate NumberSyntaxChar(c: char) {
    IsDigit(c) || IsJsWhitespace(c) || c in "+-.,"
    || ('a' <= c <= 'f') || ('A' <= c <= 'F') || c in "xXoOInity"
  }

  /** Any string holding some other character, such as "1,000원" or "12kg", is NaN
      to `Number`, so `toNumber` gives 0 rather than NaN. */
  lemma ToNumberRejects(s: string, k: nat)
    requires k < |s| && !NumberSyntaxChar(s[k])
    ensures ToNumber(Text(s)) == 0
  {
    var t := RemoveChars(s, {','});
    RemoveCharsMembers(s, {','});
    assert s[k] in s && s[k] != ',';
    assert s[k] in t;
    var j :| 0 <= j < |t| && t[j] == s[k];
    NumberOrZeroRejects(t, j);
  }

  lemma NumberOrZeroRejects(t: string, j: nat)
    requires j < |t| && !NumberSyntaxChar(t[j])
    ensures NumberOrZero(t) == 0
  {
    TrimKeeps(t, j);
    var u := Trim(t);
    var i :| 0 <= i < |u| && u[i] == t[j];
    if u != "" {
      SignedDecimalChars(u);
    }
  }

  /** Every character of a signed numeral is a digit or its leading sign. */
  lemma SignedDecimalChars(u: string)
    ensures IsSignedDecimal(u) ==> forall i :: 0 <= i < |u| ==> NumberSyntaxChar(u[i])
  {
    if IsSignedDecimal(u) && (u[0] == '+' || u[0] == '-') {
      forall i | 1 <= i < |u| ensures IsDigit(u[i]) {
        assert u[1..][i - 1] == u[i];
      }
    }
  }

  // ---------------------------------------------------------------------------
  // phoneFormat

  /** How `/^(\d{2,3})(\d{3,4})(\d{4})$/` splits a string of `n` digits, or `None`
      when no split fits. */
  function PhoneGroups(n: nat): Option<(nat, nat)> {
    if n == 11 then Some((3, 4))
    else if n == 10 then Some((3, 3))
    else if n == 9 then Some((2, 3))
    else None
  }

  /** `phoneFormat(phone)`: 11 digits become 3-4-4, 10 digits 3-3-4, 9 digits 2-3-4;
      anything else is returned unchanged. */
  function PhoneFormat(phone: string): (r: string)
    ensures AllDigits(phone) && |phone| == 11 ==> r == phone[..3] + "-" + phone[3..7] + "-" + phone[7..]
    ensures AllDigits(phone) && |phone| == 10 ==> r == phone[..3] + "-" + phone[3..6] + "-" + phone[6..]
    ensures AllDigits(phone) && |phone| == 9 ==> r == phone[..2] + "-" + phone[2..5] + "-" + phone[5..]
    ensures !AllDigits(phone) || |phone| < 9 || |phone| > 11 ==> r == phone
  {
    match PhoneGroups(|phone|)
    case Some((a, b)) =>
      if AllDigits(phone) then phone[..a] + "-" + phone[a..a + b] + "-" + phone[a + b..] else phone
    case None => phone
  }

  /** The choices a backtracking regular-expression engine tries for the two greedy
      groups `\d{2,3}` and `\d{3,4}`, in the order it tries them. */
  const RegexTrialOrder: seq<(nat, nat)> := [(3, 4), (3, 3), (2, 4), (2, 3)]

  /** The first trial whose three groups cover `s` exactly, the last being `\d{4}`. */
  function FirstFit(s: string, trials: seq<(nat, nat)>): Option<(nat, nat)>
    decreases |trials|
  {
    if trials == [] then None
    else if AllDigits(s) && trials[0].0 + trials[0].1 + 4 == |s| then Some(trials[0])
    else FirstFit(s, trials[1..])
  }

  /** `s.replace(/^(\d{2,3})(\d{3,4})(\d{4})$/, '$1-$2-$3')` as a backtracking matcher
      computes it. */
  function RegexHyphenate(s: string): string {
    match FirstFit(s, RegexTrialOrder)
    case None => s
    case Some((a, b)) => s[..a] + "-" + s[a..a + b] + "-" + s[a + b..]
  }

  /** The length-based definition agrees with the regular expression on every input. */
  lemma PhoneFormatIsRegexReplace(phone: string)
    ensures PhoneFormat(phone) == RegexHyphenate(phone)
  {
  }

  /** Removing the hyphens from the result gives the input with its own hyphens
      removed; an input without hyphens comes back exactly. */
  lemma PhoneFormatUnhyphenates(phone: string)
    ensures RemoveChars(PhoneFormat(phone), {'-'}) == RemoveChars(phone, {'-'})
    ensures '-' !in phone ==> RemoveChars(PhoneFormat(phone), {'-'}) == phone
  {
    if AllDigits(phone) && 9 <= |phone| <= 11 {
      var g := PhoneGroups(|phone|);
      var a, b := g.value.0, g.value.1;
      var p1, p2, p3 := phone[..a], phone[a..a + b], phone[a + b..];
      assert phone == p1 + p2 + p3;
      assert PhoneFormat(phone) == p1 + "-" + p2 + "-" + p3;
      RemoveCharsOfDigits(phone);
      RemoveHyphensBetween(p1, p2, p3);
    }
  }

  lemma RemoveCharsOfDigits(s: string)
    requires AllDigits(s)
    ensures RemoveChars(s, {'-'}) == s
  {
    assert forall i :: 0 <= i < |s| ==> s[i] !in {'-'};
  }

  lemma RemoveHyphensBetween(p1: string, p2: string, p3: string)
    requires AllDigits(p1) && AllDigits(p2) && AllDigits(p3)
    ensures RemoveChars(p1 + "-" + p2 + "-" + p3, {'-'}) == p1 + p2 + p3
  {
    RemoveCharsOfDigits(p1);
    RemoveCharsOfDigits(p2);
    RemoveCharsOfDigits(p3);
    RemoveCharsAround(p1, '-', p2, {'-'});
    RemoveCharsAround(p1 + "-" + p2, '-', p3, {'-'});
  }
}
