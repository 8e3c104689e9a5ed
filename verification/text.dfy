/**
  The handful of Python string operations the generator relies on, written out
  so that their edge cases are explicit: `str.strip()`, `str.split(sep)`,
  `sep.join(parts)`, `str(int)`, `int(str)` and `str.zfill(width)`.
 */
module Text {
  import opened Wrappers

  // ---------------------------------------------------------------------------
  // Whitespace and strip()
  // ---------------------------------------------------------------------------

  /** Python's `str.isspace` for one code point (the Unicode whitespace set). */
  predicate IsSpace(c: char) {
    var x := c as int;
    || (0x09 <= x <= 0x0D)
    || (0x1C <= x <= 0x20)
    || x == 0x85
    || x == 0xA0
    || x == 0x1680
    || (0x2000 <= x <= 0x200A)
    || x == 0x2028
    || x == 0x2029
    || x == 0x202F
    || x == 0x205F
    || x == 0x3000
  }

  predicate AllSpace(s: string) {
    forall i :: 0 <= i < |s| ==> IsSpace(s[i])
  }

  /** Neither end of `s` is whitespace. */
  predicate IsStripped(s: string) {
    s == [] || (!IsSpace(s[0]) && !IsSpace(s[|s| - 1]))
  }

  /** Number of whitespace characters at the start of `s`. */
  function LeadingSpace(s: string): (n: nat)
    ensures n <= |s|
    ensures forall i :: 0 <= i < n ==> IsSpace(s[i])
    ensures n < |s| ==> !IsSpace(s[n])
  {
    if s != [] && IsSpace(s[0]) then 1 + LeadingSpace(s[1..]) else 0
  }

  /** Number of whitespace characters at the end of `s`. */
  function TrailingSpace(s: string): (n: nat)
    ensures n <= |s|
    ensures forall i :: |s| - n <= i < |s| ==> IsSpace(s[i])
    ensures n < |s| ==> !IsSpace(s[|s| - 1 - n])
  {
    if s != [] && IsSpace(s[|s| - 1]) then 1 + TrailingSpace(s[..|s| - 1]) else 0
  }

  /**
    Python's `s.strip()`: the result neither starts nor ends with whitespace and
    is the slice of `s` that begins right after its leading whitespace.
   */
  function Strip(s: string): (r: string)
    ensures IsStripped(r)
    ensures LeadingSpace(s) + |r| <= |s| && r == s[LeadingSpace(s)..LeadingSpace(s) + |r|]
  {
    var a := LeadingSpace(s);
    var t := s[a..];
    var b := TrailingSpace(t);
    assert b < |t| ==> t[|t| - 1 - b] == s[|s| - 1 - b];
    s[a..|s| - b]
  }

  /** Strip removes whitespace only: `s` is the result surrounded by whitespace. */
  lemma StripRemovesOnlySpace(s: string)
    ensures exists pre, post :: AllSpace(pre) && AllSpace(post) && s == pre + Strip(s) + post
  {
    var a := LeadingSpace(s);
    var r := Strip(s);
    StripLength(s);
    LeadingSpaceIsSpace(s);
    TrailingSpaceOfSuffix(s, a);
    SliceThree(s, a, a + |r|);
    var pre, post := s[..a], s[a + |r|..];
    assert AllSpace(pre) && AllSpace(post) && s == pre + r + post;
  }

  /** The stripped text is what remains once both runs of whitespace are gone. */
  lemma StripLength(s: string)
    ensures var a := LeadingSpace(s);
      |Strip(s)| == |s| - a - TrailingSpace(s[a..])
  {
  }

  /** The trailing whitespace of a suffix of `s` ends `s`. */
  lemma TrailingSpaceOfSuffix(s: string, a: nat)
    requires a <= |s|
    ensures TrailingSpace(s[a..]) <= |s| - a && AllSpace(s[|s| - TrailingSpace(s[a..])..])
  {
    var b := TrailingSpace(s[a..]);
    TrailingSpaceIsSpace(s[a..]);
    SuffixOfSuffix(s, a, b);
  }

  lemma SuffixOfSuffix(s: string, a: nat, b: nat)
    requires a + b <= |s|
    ensures s[a..][|s| - a - b..] == s[|s| - b..]
  {
  }

  lemma LeadingSpaceIsSpace(s: string)
    ensures AllSpace(s[..LeadingSpace(s)])
  {
    var n := LeadingSpace(s);
    forall i | 0 <= i < n
      ensures IsSpace(s[..n][i])
    {
      assert s[..n][i] == s[i];
    }
  }

  lemma TrailingSpaceIsSpace(s: string)
    ensures AllSpace(s[|s| - TrailingSpace(s)..])
  {
    var n := TrailingSpace(s);
    var t := s[|s| - n..];
    forall i | 0 <= i < |t|
      ensures IsSpace(t[i])
    {
      assert t[i] == s[|s| - n + i];
    }
  }

  /** A string is its three consecutive slices. */
  lemma SliceThree(s: string, i: nat, j: nat)
    requires i <= j <= |s|
    ensures s == s[..i] + s[i..j] + s[j..]
  {
  }

  /** Stripping a string without whitespace at its ends changes nothing. */
  lemma StripStripped(s: string)
    requires IsStripped(s)
    ensures Strip(s) == s
  {
    assert LeadingSpace(s) == 0;
    assert TrailingSpace(s) == 0;
  }

  // ---------------------------------------------------------------------------
  // Searching, split() and join()
  // ---------------------------------------------------------------------------

  /** Position of the first occurrence of `c` in `s` (Python's `s.find(c)`). */
  function IndexOf(s: string, c: char): (r: Option<nat>)
    ensures r.None? <==> c !in s
    ensures r.Some? ==> r.value < |s| && s[r.value] == c && c !in s[..r.value]
  {
    if s == [] then None
    else if s[0] == c then Some(0)
    else
      match IndexOf(s[1..], c)
      case None => None
      case Some(i) =>
        assert s[..i + 1] == [s[0]] + s[1..][..i];
        Some(i + 1)
  }

  /** The first occurrence of `c` in `a + [c] + b` is right after `a` when `a` has none. */
  lemma IndexOfAfterPrefix(a: string, c: char, b: string)
    requires c !in a
    ensures IndexOf(a + [c] + b, c) == Some(|a|)
  {
    var s := a + [c] + b;
    assert s[|a|] == c;
  }

  /**
    Python's `s.split(sep)`: the pieces between occurrences of `sep`. There is
    always at least one piece (`"".split(".") == [""]`) and no piece holds `sep`.
   */
  function Split(s: string, sep: char): (parts: seq<string>)
    ensures |parts| >= 1
    ensures forall i :: 0 <= i < |parts| ==> sep !in parts[i]
    decreases |s|
  {
    match IndexOf(s, sep)
    case None => [s]
    case Some(i) => [s[..i]] + Split(s[i + 1..], sep)
  }

  /** A split yields one more piece than there are separators. */
  lemma {:induction false} SplitCount(s: string, sep: char)
    ensures |Split(s, sep)| == CountChar(s, sep) + 1
    decreases |s|
  {
    match IndexOf(s, sep)
    case None =>
      assert sep !in multiset(s);
    case Some(i) =>
      SplitCount(s[i + 1..], sep);
      assert s == s[..i] + [sep] + s[i + 1..];
      CountConcat(s[..i] + [sep], s[i + 1..], sep);
      CountConcat(s[..i], [sep], sep);
      assert sep !in multiset(s[..i]);
  }

  /** Python's `sep.join(parts)`. */
  function Join(sep: char, parts: seq<string>): string
  {
    if |parts| == 0 then ""
    else if |parts| == 1 then parts[0]
    else parts[0] + [sep] + Join(sep, parts[1..])
  }

  /** Joining the pieces of a split restores the original string. */
  lemma {:induction false} JoinSplit(s: string, sep: char)
    ensures Join(sep, Split(s, sep)) == s
    decreases |s|
  {
    match IndexOf(s, sep)
    case None =>
    case Some(i) =>
      var rest := Split(s[i + 1..], sep);
      JoinSplit(s[i + 1..], sep);
      assert Split(s, sep) == [s[..i]] + rest;
      assert s == s[..i] + [sep] + s[i + 1..];
  }

  /**
    Splitting a join gives the pieces back, provided there is at least one piece
    and none holds the separator (`Join` of `[]` and of `[""]` are both empty).
   */
  lemma {:induction false} SplitJoin(sep: char, parts: seq<string>)
    requires |parts| >= 1
    requires forall i :: 0 <= i < |parts| ==> sep !in parts[i]
    ensures Split(Join(sep, parts), sep) == parts
    decreases |parts|
  {
    if |parts| > 1 {
      var tail := Join(sep, parts[1..]);
      assert sep !in parts[0];
      IndexOfAfterPrefix(parts[0], sep, tail);
      var s := parts[0] + [sep] + tail;
      assert s[..|parts[0]|] == parts[0];
      assert s[|parts[0]| + 1..] == tail;
      SplitJoin(sep, parts[1..]);
      assert parts == [parts[0]] + parts[1..];
    } else {
      assert sep !in parts[0];
    }
  }

  /** Appending one more piece to a non-empty join adds a separator and the piece. */
  lemma {:induction false} JoinAppend(sep: char, parts: seq<string>, last: string)
    requires |parts| >= 1
    ensures Join(sep, parts + [last]) == Join(sep, parts) + [sep] + last
    decreases |parts|
  {
    if |parts| > 1 {
      JoinAppend(sep, parts[1..], last);
      assert (parts + [last])[1..] == parts[1..] + [last];
    }
  }

  /** Number of occurrences of `c` in `s`. */
  function CountChar(s: string, c: char): nat
  {
    multiset(s)[c]
  }

  lemma CountConcat(a: string, b: string, c: char)
    ensures CountChar(a + b, c) == CountChar(a, c) + CountChar(b, c)
  {
    assert multiset(a + b) == multiset(a) + multiset(b);
  }

  /** A join of n separator-free pieces holds exactly n - 1 separators. */
  lemma {:induction false} JoinCount(sep: char, parts: seq<string>)
    requires |parts| >= 1
    requires forall i :: 0 <= i < |parts| ==> sep !in parts[i]
    ensures CountChar(Join(sep, parts), sep) == |parts| - 1
    decreases |parts|
  {
    assert sep !in parts[0];
    assert sep !in multiset(parts[0]);
    if |parts| > 1 {
      JoinCount(sep, parts[1..]);
      CountConcat(parts[0] + [sep], Join(sep, parts[1..]), sep);
      CountConcat(parts[0], [sep], sep);
    }
  }

  // ---------------------------------------------------------------------------
  // Decimal numerals: str(int), int(str), zfill()
  // ---------------------------------------------------------------------------

  predicate IsDigit(c: char) {
    '0' <= c <= '9'
  }

  predicate AllDigits(s: string) {
    forall i :: 0 <= i < |s| ==> IsDigit(s[i])
  }

  function DigitChar(d: nat): (c: char)
    requires d < 10
    ensures IsDigit(c)
  {
    (('0' as int) + d) as char
  }

  function DigitValue(c: char): (d: nat)
    requires IsDigit(c)
    ensures d < 10
  {
    (c as int) - ('0' as int)
  }

  /** The number a string of decimal digits denotes (leading zeros allowed). */
  function DigitsValue(s: string): nat
    requires AllDigits(s)
  {
    if s == [] then 0 else 10 * DigitsValue(s[..|s| - 1]) + DigitValue(s[|s| - 1])
  }

  /** Python's `str(n)` for a non-negative integer: digits, no leading zero. */
  function NatToString(n: nat): (s: string)
    ensures |s| >= 1 && AllDigits(s)
    ensures s[0] == '0' ==> n == 0
    decreases n
  {
    if n < 10 then [DigitChar(n)] else NatToString(n / 10) + [DigitChar(n % 10)]
  }

  /** Python's `str(n)` for any integer. */
  function IntToString(n: int): (s: string)
    ensures |s| >= 1
  {
    if n < 0 then "-" + NatToString(-n) else NatToString(n)
  }

  /**
    The digit part Python's `int()` accepts in base 10: digits, with single
    underscores allowed between two digits.
   */
  predicate IsDigitGroups(s: string) {
    && |s| >= 1
    && IsDigit(s[0])
    && IsDigit(s[|s| - 1])
    && (forall i :: 0 <= i < |s| ==> IsDigit(s[i]) || s[i] == '_')
    && (forall i :: 0 <= i < |s| - 1 ==> s[i] == '_' ==> s[i + 1] != '_')
  }

  function RemoveUnderscores(s: string): (r: string)
    requires forall i :: 0 <= i < |s| ==> IsDigit(s[i]) || s[i] == '_'
    ensures AllDigits(r)
    ensures AllDigits(s) ==> r == s
  {
    if s == [] then []
    else (if s[0] == '_' then [] else [s[0]]) + RemoveUnderscores(s[1..])
  }

  /**
    Python's `int(s)` in base 10 on ASCII digits: surrounding whitespace is
    ignored, an optional sign is allowed, `None` stands for the ValueError.
   */
  function ParseInt(s: string): Option<int>
  {
    ParseStrippedInt(Strip(s))
  }

  /** `int()` on text that has already been stripped. */
  function ParseStrippedInt(t: string): Option<int>
  {
    if |t| >= 1 && (t[0] == '+' || t[0] == '-') then
      if IsDigitGroups(t[1..]) then
        var v: int := DigitsValue(RemoveUnderscores(t[1..]));
        Some(if t[0] == '-' then -v else v)
      else None
    else if IsDigitGroups(t) then Some(DigitsValue(RemoveUnderscores(t)))
    else None
  }

  lemma {:induction false} DigitsValueOfNatToString(n: nat)
    ensures DigitsValue(NatToString(n)) == n
    decreases n
  {
    if n >= 10 {
      DigitsValueOfNatToString(n / 10);
      var s := NatToString(n);
      assert s[..|s| - 1] == NatToString(n / 10);
    }
  }

  /** A non-empty digit string is a valid digit part and needs no underscore removal. */
  lemma DigitsAreDigitGroups(s: string)
    requires |s| >= 1 && AllDigits(s)
    ensures IsDigitGroups(s)
    ensures RemoveUnderscores(s) == s
  {
  }

  lemma ParseStrippedDigits(s: string)
    requires |s| >= 1 && AllDigits(s)
    ensures ParseStrippedInt(s) == Some(DigitsValue(s))
  {
    assert IsDigit(s[0]);
    DigitsAreDigitGroups(s);
  }

  lemma ParseStrippedNegated(t: string)
    requires |t| >= 2 && t[0] == '-' && AllDigits(t[1..])
    ensures ParseStrippedInt(t) == Some(-(DigitsValue(t[1..]) as int))
  {
    DigitsAreDigitGroups(t[1..]);
  }

  /** `int()` of a plain digit string is the number the digits denote. */
  lemma ParseIntDigits(s: string)
    requires |s| >= 1 && AllDigits(s)
    ensures ParseInt(s) == Some(DigitsValue(s))
  {
    assert IsDigit(s[0]) && IsDigit(s[|s| - 1]);
    StripStripped(s);
    ParseStrippedDigits(s);
  }

  /** `int()` of a minus sign followed by digits is the negated number. */
  lemma ParseIntNegated(t: string)
    requires |t| >= 2 && t[0] == '-' && AllDigits(t[1..])
    ensures ParseInt(t) == Some(-(DigitsValue(t[1..]) as int))
  {
    assert IsDigit(t[1..][|t| - 2]);
    StripStripped(t);
    ParseStrippedNegated(t);
  }

  lemma ParseIntOfNegative(n: int)
    requires n < 0
    ensures ParseInt(IntToString(n)) == Some(n)
  {
    var digits := NatToString(-n);
    var t := IntToString(n);
    assert t[0] == '-' && t[1..] == digits;
    DigitsValueOfNatToString(-n);
    assert DigitsValue(t[1..]) == -n;
    ParseIntNegated(t);
  }

  /** `int(str(n)) == n`: the decimal rendering of an integer parses back to it. */
  lemma ParseIntOfIntToString(n: int)
    ensures ParseInt(IntToString(n)) == Some(n)
  {
    if n < 0 {
      ParseIntOfNegative(n);
    } else {
      DigitsValueOfNatToString(n);
      ParseIntDigits(NatToString(n));
    }
  }

  /** `str` is injective on integers. */
  lemma IntToStringInjective(a: int, b: int)
    requires IntToString(a) == IntToString(b)
    ensures a == b
  {
    ParseIntOfIntToString(a);
    ParseIntOfIntToString(b);
  }

  /** A string of `n` zero digits. */
  function Zeros(n: nat): (r: string)
    ensures |r| == n
    ensures forall i :: 0 <= i < n ==> r[i] == '0'
  {
    seq(n, _ => '0')
  }

  /**
    Python's `s.zfill(width)`: pads with '0' on the left up to `width`
    characters, keeping a leading sign in front.
   */
  function ZFill(s: string, width: nat): (r: string)
    ensures |r| == if |s| >= width then |s| else width
    ensures |s| >= width ==> r == s
    ensures |s| < width && !(|s| >= 1 && (s[0] == '+' || s[0] == '-')) ==>
      r[width - |s|..] == s && forall i :: 0 <= i < width - |s| ==> r[i] == '0'
  {
    if |s| >= width then s
    else if |s| >= 1 && (s[0] == '+' || s[0] == '-') then [s[0]] + Zeros(width - |s|) + s[1..]
    else Zeros(width - |s|) + s
  }

  lemma {:induction false} DigitsValueLeadingZeros(k: nat, s: string)
    requires AllDigits(s)
    ensures AllDigits(Zeros(k) + s)
    ensures DigitsValue(Zeros(k) + s) == DigitsValue(s)
    decreases |s|
  {
    var z := Zeros(k) + s;
    assert AllDigits(z) by {
      forall i | 0 <= i < |z|
        ensures IsDigit(z[i])
      {
        if i >= k {
          assert z[i] == s[i - k];
        }
      }
    }
    if s == [] {
      assert z == Zeros(k);
      ZerosValue(k);
    } else {
      DigitsValueLeadingZeros(k, s[..|s| - 1]);
      assert z[..|z| - 1] == Zeros(k) + s[..|s| - 1];
    }
  }

  lemma {:induction false} ZerosValue(k: nat)
    ensures AllDigits(Zeros(k))
    ensures DigitsValue(Zeros(k)) == 0
  {
    if k > 0 {
      ZerosValue(k - 1);
      assert Zeros(k)[..k - 1] == Zeros(k - 1);
    }
  }

  /** Zero padding keeps the number: `int(str(n).zfill(w)) == n`. */
  lemma ParseIntOfZFill(n: nat, width: nat)
    ensures ParseInt(ZFill(NatToString(n), width)) == Some(n)
  {
    var s := NatToString(n);
    DigitsValueOfNatToString(n);
    var k := ZFillUnsigned(s, width);
    ParseIntOfPadded(s, k);
  }

  /** Padding text that carries no sign only puts zeros in front of it. */
  lemma ZFillUnsigned(s: string, width: nat) returns (k: nat)
    requires |s| >= 1 && IsDigit(s[0])
    ensures ZFill(s, width) == Zeros(k) + s
  {
    if |s| >= width {
      k := 0;
      assert Zeros(0) + s == s;
    } else {
      k := width - |s|;
    }
  }

  lemma ParseIntOfPadded(s: string, k: nat)
    requires |s| >= 1 && AllDigits(s)
    ensures ParseInt(Zeros(k) + s) == Some(DigitsValue(s))
  {
    DigitsValueLeadingZeros(k, s);
    ParseIntDigits(Zeros(k) + s);
  }
}
