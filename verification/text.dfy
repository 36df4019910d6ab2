/** String operations the components rely on: the `\s`, `\d` and letter
    classes of JavaScript regular expressions, ASCII `toLowerCase`,
    `includes`, the email/phone/expiry patterns of the forms, and
    `parseInt` with its default radix. Strings are `seq<char>`, sequences of
    Unicode scalar values; JavaScript's UTF-16 code units differ from them
    only above U+FFFF. */
module Text {
  import opened Common

  /** The `\s` class of a JavaScript regular expression (white space and line
      terminators); `String.prototype.trim` and `parseInt` skip the same set. */
  predicate IsSpace(c: char) {
    || c == ' ' || c == '\t' || c == '\n' || c == '\r'
    || c == '\U{B}' || c == '\U{C}' || c == '\U{A0}' || c == '\U{1680}'
    || ('\U{2000}' <= c <= '\U{200A}')
    || c == '\U{2028}' || c == '\U{2029}' || c == '\U{202F}' || c == '\U{205F}'
    || c == '\U{3000}' || c == '\U{FEFF}'
  }

  /** `\d` */
  predicate IsDigit(c: char) { '0' <= c <= '9' }

  /** `[a-z]` */
  predicate IsLower(c: char) { 'a' <= c <= 'z' }

  /** `[A-Z]` */
  predicate IsUpper(c: char) { 'A' <= c <= 'Z' }

  /** `[a-zA-Z0-9]` */
  predicate IsAlnum(c: char) { IsLower(c) || IsUpper(c) || IsDigit(c) }

  /** `toLowerCase` on one code unit, for the ASCII letters. */
  function LowerChar(c: char): (r: char)
    ensures IsUpper(c) ==> IsLower(r)
    ensures !IsUpper(c) ==> r == c
  {
    if IsUpper(c) then (c as int - 'A' as int + 'a' as int) as char else c
  }

  /** `toLowerCase`: every ASCII upper-case letter replaced by its lower-case
      form, every other code unit kept. */
  function Lower(s: string): (r: string)
    ensures |r| == |s|
    ensures forall i :: 0 <= i < |s| ==> r[i] == LowerChar(s[i])
    ensures forall i :: 0 <= i < |r| ==> !IsUpper(r[i])
  {
    seq(|s|, i requires 0 <= i < |s| => LowerChar(s[i]))
  }

  lemma LowerIdempotent(s: string)
    ensures Lower(Lower(s)) == Lower(s)
  {
  }

  /** `s.includes(t)`: `t` occurs in `s` as a contiguous run. */
  predicate Contains(s: string, t: string) {
    exists i | 0 <= i <= |s| - |t| :: OccursAt(s, t, i)
  }

  /** `t` occurs in `s` starting at position `i`. */
  predicate OccursAt(s: string, t: string, i: int)
    requires 0 <= i <= |s| - |t|
  {
    s[i..i + |t|] == t
  }

  /** The empty string occurs in every string, and a string occurs in any
      string built around it. */
  lemma ContainsFacts(a: string, t: string, b: string)
    ensures Contains(a, [])
    ensures Contains(a + t + b, t)
  {
    assert OccursAt(a, [], 0);
    var s := a + t + b;
    assert OccursAt(s, t, |a|);
  }

  /** `s.replace(/\s/g, '')` */
  function StripSpaces(s: string): (r: string)
    ensures forall i :: 0 <= i < |r| ==> !IsSpace(r[i])
    ensures forall c :: c in r <==> c in s && !IsSpace(c)
  {
    Filter(s, c => !IsSpace(c))
  }

  /** Stripping works piecewise: the kept code units keep their order and
      their number. */
  lemma StripSpacesAppend(a: string, b: string)
    ensures StripSpaces(a + b) == StripSpaces(a) + StripSpaces(b)
  {
    FilterAppend(a, b, c => !IsSpace(c));
  }

  /** One code unit is dropped exactly when it is white space. */
  lemma StripSpacesOne(c: char)
    ensures StripSpaces([c]) == if IsSpace(c) then [] else [c]
  {
    FilterSingleton(c, c => !IsSpace(c));
  }

  /** A text without white space is left as it is. */
  lemma {:induction false} NoSpaceStripped(s: string)
    requires forall i | 0 <= i < |s| :: !IsSpace(s[i])
    ensures StripSpaces(s) == s
  {
    if |s| > 0 {
      assert s == [s[0]] + s[1..];
      StripSpacesAppend([s[0]], s[1..]);
      StripSpacesOne(s[0]);
      NoSpaceStripped(s[1..]);
    }
  }

  /** No code unit of `s[lo..hi]` is white space (`\S` all the way). */
  predicate NoSpace(s: string, lo: int, hi: int)
    requires 0 <= lo <= hi <= |s|
  {
    forall j | lo <= j < hi :: !IsSpace(s[j])
  }

  /** A code unit of the class `[^\s@]`. */
  predicate Plain(c: char) { !IsSpace(c) && c != '@' }

  /** Every code unit of `s[lo..hi]` is in `[^\s@]`. */
  predicate AllPlain(s: string, lo: int, hi: int)
    requires 0 <= lo <= hi <= |s|
  {
    forall j | lo <= j < hi :: Plain(s[j])
  }

  /** The regular-expression reading of `/\S+@\S+\.\S+/.test(s)` (no anchors):
      some run `s[p..q]` splits as u `@` v `.` w with u, v, w non-empty and
      free of white space. */
  ghost predicate LooseEmailMatch(s: string) {
    exists p, i, k, q | 0 <= p < i && i + 1 < k && k + 1 < q <= |s| :: LooseSplit(s, p, i, k, q)
  }

  /** `s[p..q]` is u `@` v `.` w with the `@` at `i` and the `.` at `k`. */
  predicate LooseSplit(s: string, p: int, i: int, k: int, q: int)
    requires 0 <= p < i && i + 1 < k && k + 1 < q <= |s|
  {
    s[i] == '@' && s[k] == '.'
    && NoSpace(s, p, i) && NoSpace(s, i + 1, k) && NoSpace(s, k + 1, q)
  }

  /** `/\S+@\S+\.\S+/.test(s)`, decided by looking only at the code unit before
      the `@`, the run between `@` and `.`, and the code unit after the `.`. */
  function LooseEmail(s: string): (b: bool)
    ensures b ==> |s| >= 5 && '@' in s
  {
    exists i, k | 1 <= i && i + 1 < k && k + 1 < |s| :: LooseAt(s, i, k)
  }

  /** The `@` at `i` and the `.` at `k` anchor a match of the loose pattern. */
  predicate LooseAt(s: string, i: int, k: int)
    requires 1 <= i && i + 1 < k && k + 1 < |s|
  {
    s[i] == '@' && s[k] == '.' && !IsSpace(s[i - 1])
    && NoSpace(s, i + 1, k) && !IsSpace(s[k + 1])
  }

  /** The decision procedure agrees with the regular expression. */
  lemma LooseEmailCorrect(s: string)
    ensures LooseEmail(s) <==> LooseEmailMatch(s)
  {
    if LooseEmail(s) {
      var i, k :| 1 <= i && i + 1 < k && k + 1 < |s| && LooseAt(s, i, k);
      assert LooseSplit(s, i - 1, i, k, k + 2);
    }
    if LooseEmailMatch(s) {
      var p, i, k, q :| 0 <= p < i && i + 1 < k && k + 1 < q <= |s| && LooseSplit(s, p, i, k, q);
      assert LooseAt(s, i, k);
    }
  }

  /** `/^[^\s@]+@[^\s@]+\.[^\s@]+$/.test(s)`: the whole string splits as
      u `@` v `.` w with u, v, w non-empty runs of `[^\s@]`. */
  function StrictEmail(s: string): (b: bool)
    ensures b ==> |s| >= 5 && '@' in s
  {
    exists i, k | 0 < i && i + 1 < k && k + 1 < |s| :: StrictAt(s, i, k)
  }

  /** The whole of `s` is u `@` v `.` w with the `@` at `i` and the `.` at `k`. */
  predicate StrictAt(s: string, i: int, k: int)
    requires 0 < i && i + 1 < k && k + 1 < |s|
  {
    s[i] == '@' && s[k] == '.'
    && AllPlain(s, 0, i) && AllPlain(s, i + 1, k) && AllPlain(s, k + 1, |s|)
  }

  /** Every address the sign-in forms accept has exactly one `@` and is also
      accepted by the looser checkout pattern. */
  lemma StrictEmailFacts(s: string)
    requires StrictEmail(s)
    ensures LooseEmail(s)
    ensures exists i | 0 <= i < |s| :: s[i] == '@' && forall j | 0 <= j < |s| && j != i :: s[j] != '@'
  {
    var i, k :| 0 < i && i + 1 < k && k + 1 < |s| && StrictAt(s, i, k);
    assert Plain(s[i - 1]) && Plain(s[k + 1]);
    assert LooseAt(s, i, k);
    forall j | 0 <= j < |s| && j != i ensures s[j] != '@' {
      if j < i {
        assert Plain(s[j]);
      } else if j < k {
        assert Plain(s[j]);
      } else if j > k {
        assert Plain(s[j]);
      }
    }
  }

  /** `/^\d{10}$/.test(s)` */
  function TenDigits(s: string): (b: bool)
    ensures b ==> forall j | 0 <= j < |s| :: !IsSpace(s[j])
  {
    |s| == 10 && forall j | 0 <= j < |s| :: IsDigit(s[j])
  }

  /** `/^\d{2}\/\d{2}$/.test(s)`, the MM/AA expiry format. */
  function ExpiryFormat(s: string): (b: bool)
    ensures b ==> forall j | 0 <= j < |s| :: !IsSpace(s[j])
  {
    |s| == 5 && IsDigit(s[0]) && IsDigit(s[1]) && s[2] == '/' && IsDigit(s[3]) && IsDigit(s[4])
  }

  // ---------------------------------------------------------------------
  // parseInt

  /** The value of `c` as a digit in base `radix` (10 or 16), if it is one. */
  function DigitValue(c: char, radix: int): (r: Option<int>)
    ensures r.Some? ==> 0 <= r.value < radix || (radix != 10 && radix != 16)
  {
    if IsDigit(c) && c as int - '0' as int < radix then Some(c as int - '0' as int)
    else if radix == 16 && 'a' <= c <= 'f' then Some(c as int - 'a' as int + 10)
    else if radix == 16 && 'A' <= c <= 'F' then Some(c as int - 'A' as int + 10)
    else None
  }

  /** Length of the longest prefix of `s` made of digits of base `radix`. */
  function DigitRun(s: string, radix: int): (n: nat)
    ensures n <= |s|
    ensures forall j | 0 <= j < n :: DigitValue(s[j], radix).Some?
    ensures n < |s| ==> DigitValue(s[n], radix).None?
  {
    if |s| == 0 || DigitValue(s[0], radix).None? then 0
    else 1 + DigitRun(s[1..], radix)
  }

  /** The number written by the digits `s` in base `radix`, most significant
      first. */
  function DigitsValue(s: string, radix: int): (v: nat)
    requires radix == 10 || radix == 16
    requires forall j | 0 <= j < |s| :: DigitValue(s[j], radix).Some?
  {
    if |s| == 0 then 0
    else DigitsValue(s[..|s| - 1], radix) * radix + DigitValue(s[|s| - 1], radix).value
  }

  /** `s` with its leading white space removed. */
  function TrimStart(s: string): (r: string)
    ensures |r| <= |s| && r == s[|s| - |r|..]
    ensures |r| > 0 ==> !IsSpace(r[0])
  {
    if |s| > 0 && IsSpace(s[0]) then TrimStart(s[1..]) else s
  }

  /** The number a string of digits in base `radix` starts with, if any. */
  function LeadingNumber(body: string, radix: int): (r: Option<int>)
    requires radix == 10 || radix == 16
    ensures r.Some? <==> |body| > 0 && DigitValue(body[0], radix).Some?
    ensures r.Some? ==> r.value >= 0
  {
    var n := DigitRun(body, radix);
    if n == 0 then None else Some(DigitsValue(body[..n], radix))
  }

  lemma {:induction false} DigitRunAll(s: string, radix: int)
    requires forall j | 0 <= j < |s| :: DigitValue(s[j], radix).Some?
    ensures DigitRun(s, radix) == |s|
  {
    if |s| > 0 {
      DigitRunAll(s[1..], radix);
    }
  }

  /** `parseInt(s)` with no radix argument; `None` stands for `NaN`. Leading
      white space is skipped, one sign is read, a `0x`/`0X` prefix selects
      base 16, and the longest run of digits that follows is the number;
      anything after it is ignored. */
  function ParseInt(s: string): (r: Option<int>)
    ensures |TrimStart(s)| == 0 ==> r.None?
    ensures r.Some? ==> exists j | 0 <= j < |s| :: IsDigit(s[j])
  {
    var t := TrimStart(s);
    var sign := if |t| > 0 && t[0] == '-' then -1 else 1;
    var u := if |t| > 0 && (t[0] == '-' || t[0] == '+') then t[1..] else t;
    var hex := |u| >= 2 && u[0] == '0' && (u[1] == 'x' || u[1] == 'X');
    match LeadingNumber(if hex then u[2..] else u, if hex then 16 else 10)
    case None => None
    case Some(v) => Some(sign * v)
  }

  /** `String(n)` for a non-negative integer: its decimal digits. */
  function Decimal(n: nat): (r: string)
    ensures |r| > 0
    ensures forall j | 0 <= j < |r| :: IsDigit(r[j])
    ensures r[0] == '0' ==> n == 0
  {
    if n < 10 then [('0' as int + n) as char]
    else Decimal(n / 10) + [('0' as int + n % 10) as char]
  }

  lemma {:induction false} DecimalValue(n: nat)
    ensures forall j | 0 <= j < |Decimal(n)| :: DigitValue(Decimal(n)[j], 10).Some?
    ensures DigitsValue(Decimal(n), 10) == n
  {
    var d := Decimal(n);
    if n >= 10 {
      DecimalValue(n / 10);
      assert d[..|d| - 1] == Decimal(n / 10);
    }
  }

  /** Text that starts with a digit other than a `0x` prefix is read as
      decimal from its first code unit. */
  lemma ParseIntDigits(t: string)
    requires |t| > 0 && IsDigit(t[0])
    requires !(|t| >= 2 && t[0] == '0' && (t[1] == 'x' || t[1] == 'X'))
    ensures ParseInt(t) == LeadingNumber(t, 10)
  {
    assert !IsSpace(t[0]);
    assert TrimStart(t) == t;
    assert t[0] != '-' && t[0] != '+';
  }

  /** `parseInt` recovers any non-negative integer from its decimal text, so
      a link built as `/producto/${id}` leads back to the same id. */
  lemma ParseDecimal(n: nat)
    ensures ParseInt(Decimal(n)) == Some(n)
  {
    var d := Decimal(n);
    DecimalValue(n);
    DigitRunAll(d, 10);
    assert d[..|d|] == d;
    assert LeadingNumber(d, 10) == Some(n);
    ParseIntDigits(d);
  }
}
