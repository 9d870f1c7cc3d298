/** String helpers with the C library's meaning, as the tool uses them:
    `strncmp` prefix tests, `strtok_r` tokenising on one delimiter, `strstr`,
    `atoi`, and `%d` / `%02x` / `%02X` / `%08lx` formatting. Strings are the
    characters of a C string without its terminating NUL. */
module Text {
  import opened Common

  /** p is a prefix of s. */
  predicate IsPrefix(p: string, s: string) {
    |p| <= |s| && s[..|p|] == p
  }

  /** Words that differ at some index both have are not prefixes of each
      other. */
  lemma NotPrefixAt(p: string, s: string, i: nat)
    requires i < |p| && i < |s| && p[i] != s[i]
    ensures !IsPrefix(p, s)
  {
    if |p| <= |s| {
      assert s[..|p|][i] == s[i] != p[i];
    }
  }

  /** A string is a prefix of itself. */
  lemma PrefixSelf(s: string)
    ensures IsPrefix(s, s)
  {
    assert s[..|s|] == s;
  }

  /** What `strncmp` compares of a C string when given the bound n: at most n
      characters, and never past the terminating NUL. */
  function CView(s: string, n: nat): string {
    (s + "\0")[..if n <= |s| then n else |s| + 1]
  }

  /** strncmp(a, b, n) == 0 */
  predicate StrNCmpEq(a: string, b: string, n: nat) {
    CView(a, n) == CView(b, n)
  }

  /** A C string holds no NUL character. */
  predicate CStr(s: string) {
    '\0' !in s
  }

  /** The idiom `strncmp(word, name, strlen(word)) == 0` of the config parsers
      holds exactly when word is a prefix of name; the model writes it as
      IsPrefix(word, name). */
  lemma StrNCmpOwnLengthIsPrefix(word: string, name: string)
    requires CStr(word) && CStr(name)
    ensures StrNCmpEq(word, name, |word|) <==> IsPrefix(word, name)
  {
    assert CView(word, |word|) == word;
    if |word| <= |name| {
      assert CView(name, |word|) == name[..|word|];
    } else {
      assert CView(name, |word|)[|name|] == '\0';
    }
  }

  /** strstr(hay, needle) != NULL: needle occurs somewhere in hay (the empty
      needle occurs everywhere). */
  predicate Occurs(needle: string, hay: string) {
    exists k :: 0 <= k <= |hay| && OccursAt(needle, hay, k)
  }

  predicate OccursAt(needle: string, hay: string, k: int) {
    0 <= k <= |hay| - |needle| && hay[k..k + |needle|] == needle
  }

  /** Index of the first occurrence of c in s, or |s| (strcspn with one
      reject character). */
  function IndexOf(s: string, c: char): (k: nat)
    ensures k <= |s|
    ensures k < |s| ==> s[k] == c
    ensures forall j :: 0 <= j < k ==> s[j] != c
  {
    if s == [] then 0
    else if s[0] == c then 0
    else 1 + IndexOf(s[1..], c)
  }

  // ---------------------------------------------------------------------
  // strtok_r with a single delimiter character
  // ---------------------------------------------------------------------

  /** Length of the leading run of characters of s that are not d. */
  function RunLength(s: string, d: char): (n: nat)
    ensures n <= |s|
    ensures forall j :: 0 <= j < n ==> s[j] != d
    ensures n < |s| ==> s[n] == d
  {
    if s == [] || s[0] == d then 0 else 1 + RunLength(s[1..], d)
  }

  /** The tokens strtok_r returns: the maximal non-empty runs of s that
      contain no d, in order. */
  function Tokens(s: string, d: char): seq<string>
    decreases |s|
  {
    if s == [] then []
    else if s[0] == d then Tokens(s[1..], d)
    else
      var n := RunLength(s, d);
      [s[..n]] + Tokens(s[n..], d)
  }

  /** A token list strtok_r could return. */
  predicate WellFormedTokens(ts: seq<string>, d: char) {
    forall i :: 0 <= i < |ts| ==> ts[i] != [] && d !in ts[i]
  }

  /** The tokens joined back with the delimiter. */
  function Join(ts: seq<string>, d: char): string {
    if ts == [] then [] else if |ts| == 1 then ts[0] else ts[0] + [d] + Join(ts[1..], d)
  }

  lemma {:induction false} TokensWellFormed(s: string, d: char)
    ensures WellFormedTokens(Tokens(s, d), d)
    decreases |s|
  {
    if s == [] {
    } else if s[0] == d {
      TokensWellFormed(s[1..], d);
    } else {
      var n := RunLength(s, d);
      TokensWellFormed(s[n..], d);
      assert d !in s[..n] by {
        forall j | 0 <= j < n ensures s[..n][j] != d { }
      }
    }
  }

  lemma {:induction false} RunLengthOfWord(t: string, rest: string, d: char)
    requires d !in t
    requires rest == [] || rest[0] == d
    ensures RunLength(t + rest, d) == |t|
    decreases |t|
  {
    if t != [] {
      assert (t + rest)[1..] == t[1..] + rest;
      RunLengthOfWord(t[1..], rest, d);
    }
  }

  /** Tokenising undoes joining: a well-formed token list survives the round
      trip through its delimited text. */
  lemma {:induction false} TokensOfJoin(ts: seq<string>, d: char)
    requires WellFormedTokens(ts, d)
    ensures Tokens(Join(ts, d), d) == ts
    decreases |ts|
  {
    if ts == [] {
    } else if |ts| == 1 {
      RunLengthOfWord(ts[0], [], d);
      assert ts[0] + [] == ts[0];
      assert ts[0][|ts[0]|..] == [];
    } else {
      var t := ts[0];
      var rest := Join(ts[1..], d);
      var s := t + ([d] + rest);
      assert Join(ts, d) == s;
      RunLengthOfWord(t, [d] + rest, d);
      assert s[..|t|] == t;
      assert s[|t|..] == [d] + rest;
      assert ([d] + rest)[1..] == rest;
      assert WellFormedTokens(ts[1..], d) by {
        forall i | 0 <= i < |ts[1..]| ensures ts[1..][i] != [] && d !in ts[1..][i] {
          assert ts[1..][i] == ts[i + 1];
        }
      }
      TokensOfJoin(ts[1..], d);
      assert Tokens(s[|t|..], d) == Tokens(rest, d);
    }
  }

  /** Drops the leading blanks, as the keyUsage parser does to each token. */
  function TrimLeadingSpaces(w: string): (r: string)
    ensures r == [] || r[0] != ' '
    ensures exists k :: 0 <= k <= |w| && r == w[k..]
  {
    if w != [] && w[0] == ' ' then
      var r := TrimLeadingSpaces(w[1..]);
      var k :| 0 <= k <= |w[1..]| && r == w[1..][k..];
      assert r == w[k + 1..];
      r
    else
      assert w == w[0..];
      w
  }

  // ---------------------------------------------------------------------
  // Decimal numbers: atoi and %d
  // ---------------------------------------------------------------------

  predicate IsDigit(c: char) {
    '0' <= c <= '9'
  }

  function DigitValue(c: char): nat
    requires IsDigit(c)
  {
    (c as int) - ('0' as int)
  }

  function DigitChar(v: nat): (c: char)
    requires v < 10
    ensures IsDigit(c) && DigitValue(c) == v
  {
    (('0' as int) + v) as char
  }

  /** The value of a string of decimal digits, read left to right. */
  function DigitsValue(s: string): nat
    requires forall j :: 0 <= j < |s| ==> IsDigit(s[j])
  {
    if s == [] then 0 else 10 * DigitsValue(s[..|s| - 1]) + DigitValue(s[|s| - 1])
  }

  /** The longest prefix of s made of digits. */
  function LeadingDigits(s: string): (r: string)
    ensures IsPrefix(r, s)
    ensures forall j :: 0 <= j < |r| ==> IsDigit(r[j])
    ensures |r| < |s| ==> !IsDigit(s[|r|])
  {
    if s != [] && IsDigit(s[0]) then [s[0]] + LeadingDigits(s[1..]) else []
  }

  predicate IsCSpace(c: char) {
    c == ' ' || c == '\t' || c == '\n' || c == '\r' || c == '\U{b}' || c == '\U{c}'
  }

  function SkipSpace(s: string): (r: string)
    ensures r == [] || !IsCSpace(r[0])
  {
    if s != [] && IsCSpace(s[0]) then SkipSpace(s[1..]) else s
  }

  /** C's atoi: leading white space, an optional sign, then the run of digits
      (values are unbounded here; C's overflow is undefined behaviour). */
  function Atoi(s: string): int {
    var t := SkipSpace(s);
    if t != [] && t[0] == '-' then -(DigitsValue(LeadingDigits(t[1..])) as int)
    else if t != [] && t[0] == '+' then DigitsValue(LeadingDigits(t[1..]))
    else DigitsValue(LeadingDigits(t))
  }

  /** snprintf "%d" for a non-negative value. */
  function NatToString(n: nat): (s: string)
    ensures s != []
    ensures forall j :: 0 <= j < |s| ==> IsDigit(s[j])
    decreases n
  {
    if n < 10 then [DigitChar(n)] else NatToString(n / 10) + [DigitChar(n % 10)]
  }

  lemma {:induction false} DigitsValueOfDecimal(n: nat)
    ensures DigitsValue(NatToString(n)) == n
    decreases n
  {
    if n >= 10 {
      var s := NatToString(n);
      assert s[..|s| - 1] == NatToString(n / 10);
      DigitsValueOfDecimal(n / 10);
    } else {
      assert NatToString(n)[..0] == [];
    }
  }

  lemma {:induction false} LeadingDigitsOfDigits(s: string)
    requires forall j :: 0 <= j < |s| ==> IsDigit(s[j])
    ensures LeadingDigits(s) == s
    decreases |s|
  {
    if s != [] {
      LeadingDigitsOfDigits(s[1..]);
      assert [s[0]] + s[1..] == s;
    }
  }

  /** atoi reads back what %d printed. */
  lemma AtoiOfDecimal(n: nat)
    ensures Atoi(NatToString(n)) == n
  {
    var s := NatToString(n);
    assert !IsCSpace(s[0]);
    assert SkipSpace(s) == s;
    LeadingDigitsOfDigits(s);
    DigitsValueOfDecimal(n);
  }

  /** snprintf "%d" for any value. */
  function IntToString(i: int): (s: string)
    ensures s != []
  {
    if i < 0 then "-" + NatToString(-i) else NatToString(i)
  }

  /** atoi reads back what %d printed, negative values included. */
  lemma AtoiOfInt(i: int)
    ensures Atoi(IntToString(i)) == i
  {
    if i < 0 {
      var s := IntToString(i);
      assert !IsCSpace(s[0]) && SkipSpace(s) == s;
      assert s[1..] == NatToString(-i);
      LeadingDigitsOfDigits(NatToString(-i));
      DigitsValueOfDecimal(-i);
    } else {
      AtoiOfDecimal(i);
    }
  }

  /** Different numbers print differently, so the numbered config keys
      "DNS.1", "DNS.2", ... are all distinct. */
  lemma DecimalInjective(a: nat, b: nat)
    requires NatToString(a) == NatToString(b)
    ensures a == b
  {
    DigitsValueOfDecimal(a);
    DigitsValueOfDecimal(b);
  }

  // ---------------------------------------------------------------------
  // Hexadecimal: %02x, %02X and %08lx
  // ---------------------------------------------------------------------

  function HexDigit(v: nat, upper: bool): (c: char)
    requires v < 16
  {
    if v < 10 then DigitChar(v)
    else if upper then (('A' as int) + v - 10) as char
    else (('a' as int) + v - 10) as char
  }

  /** The value of a hexadecimal digit of either case, or 16 for any other
      character. */
  function HexValue(c: char): nat {
    if '0' <= c <= '9' then (c as int) - ('0' as int)
    else if 'a' <= c <= 'f' then (c as int) - ('a' as int) + 10
    else if 'A' <= c <= 'F' then (c as int) - ('A' as int) + 10
    else 16
  }

  /** Two hexadecimal digits of one byte: "%02x" (lower) or "%02X" (upper). */
  function Hex2(b: byte, upper: bool): (s: string)
    ensures |s| == 2
  {
    [HexDigit(b / 16, upper), HexDigit(b % 16, upper)]
  }

  /** Each byte's two digits read back as that byte. */
  lemma Hex2RoundTrip(b: byte, upper: bool)
    ensures HexValue(Hex2(b, upper)[0]) * 16 + HexValue(Hex2(b, upper)[1]) == b
  {
  }

  /** The bytes printed one after the other as "%02X" or "%02x". */
  function HexBytes(bs: seq<byte>, upper: bool): (s: string)
    ensures |s| == 2 * |bs|
  {
    if bs == [] then [] else Hex2(bs[0], upper) + HexBytes(bs[1..], upper)
  }

  /** Reads pairs of hexadecimal digits back as bytes. */
  function UnhexPairs(s: string): seq<int>
    requires |s| % 2 == 0
  {
    if s == [] then [] else [HexValue(s[0]) * 16 + HexValue(s[1])] + UnhexPairs(s[2..])
  }

  lemma {:induction false} HexBytesRoundTrip(bs: seq<byte>, upper: bool)
    ensures UnhexPairs(HexBytes(bs, upper)) == bs
  {
    if bs != [] {
      var s := HexBytes(bs, upper);
      Hex2RoundTrip(bs[0], upper);
      assert s[2..] == HexBytes(bs[1..], upper);
      HexBytesRoundTrip(bs[1..], upper);
    }
  }

  /** The lower-case hexadecimal digits of n, without leading zeros. */
  function HexNat(n: nat): (s: string)
    ensures s != []
    decreases n
  {
    if n < 16 then [HexDigit(n, false)] else HexNat(n / 16) + [HexDigit(n % 16, false)]
  }

  /** The value of a string of hexadecimal digits. */
  function HexDigitsValue(s: string): nat {
    if s == [] then 0 else 16 * HexDigitsValue(s[..|s| - 1]) + HexValue(s[|s| - 1])
  }

  function Zeros(k: nat): (s: string)
    ensures |s| == k && forall j :: 0 <= j < k ==> s[j] == '0'
  {
    if k == 0 then [] else ['0'] + Zeros(k - 1)
  }

  /** snprintf "%08lx": lower-case hexadecimal, padded with zeros to at least
      eight digits. */
  function Hex08(n: nat): (s: string)
    ensures |s| >= 8
  {
    var h := HexNat(n);
    if |h| < 8 then Zeros(8 - |h|) + h else h
  }

  lemma {:induction false} HexNatValue(n: nat)
    ensures HexDigitsValue(HexNat(n)) == n
    decreases n
  {
    if n >= 16 {
      var s := HexNat(n);
      assert s[..|s| - 1] == HexNat(n / 16);
      HexNatValue(n / 16);
    } else {
      assert HexNat(n)[..0] == [];
    }
  }

  lemma {:induction false} HexValueOfZerosThen(k: nat, h: string)
    ensures HexDigitsValue(Zeros(k) + h) == HexDigitsValue(h)
    decreases |h|, k
  {
    if h == [] {
      assert Zeros(k) + h == Zeros(k);
      if k > 0 {
        assert Zeros(k)[..k - 1] == Zeros(k - 1);
        HexValueOfZerosThen(k - 1, []);
        assert Zeros(k - 1) + [] == Zeros(k - 1);
      }
    } else {
      var s := Zeros(k) + h;
      assert s[..|s| - 1] == Zeros(k) + h[..|h| - 1];
      HexValueOfZerosThen(k, h[..|h| - 1]);
    }
  }

  /** The subject-hash line reads back as the hash. */
  lemma Hex08Value(n: nat)
    ensures HexDigitsValue(Hex08(n)) == n
  {
    HexNatValue(n);
    var h := HexNat(n);
    if |h| < 8 {
      HexValueOfZerosThen(8 - |h|, h);
    }
  }

  /** Below 2^32 the subject hash is printed with exactly eight digits. */
  lemma {:induction false} HexNatLength(n: nat, k: nat)
    requires n < Pow16(k) && k >= 1
    ensures |HexNat(n)| <= k
    decreases k
  {
    if n >= 16 {
      assert n / 16 < Pow16(k - 1);
      HexNatLength(n / 16, k - 1);
    }
  }

  function Pow16(k: nat): nat {
    if k == 0 then 1 else 16 * Pow16(k - 1)
  }

  lemma Hex08Width(n: nat)
    requires n < 0x1_0000_0000
    ensures |Hex08(n)| == 8
  {
    assert Pow16(8) == 0x1_0000_0000;
    HexNatLength(n, 8);
  }

  /** tolower() on ASCII letters, as wolfCLU_convertToLower applies it. */
  function ToLower(s: string): (r: string)
    ensures |r| == |s|
    ensures forall j :: 0 <= j < |s| ==> !('A' <= r[j] <= 'Z')
    ensures forall j :: 0 <= j < |s| && !('A' <= s[j] <= 'Z') ==> r[j] == s[j]
    ensures forall j :: 0 <= j < |s| && 'A' <= s[j] <= 'Z' ==> r[j] as int == s[j] as int + 32
  {
    if s == [] then []
    else [if 'A' <= s[0] <= 'Z' then ((s[0] as int) + 32) as char else s[0]] + ToLower(s[1..])
  }
}
