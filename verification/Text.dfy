/** The text functions the schedule parser leans on: lower-casing, splitting on one
    separator, and the decimal integers of a 64-bit platform. */
module Text {
  import opened Wrappers

  // --- Lower case -------------------------------------------------------------------

  /** Lower-cases one character as far as it can matter to a comparison with an ASCII
      word: the ASCII letters, and the two other characters whose lower case is an ASCII
      letter (the Kelvin sign and the dotted capital I). */
  function LowerChar(c: char): char {
    if 'A' <= c <= 'Z' then (c as int + 32) as char
    else if c == '\U{212A}' then 'k'
    else if c == '\U{0130}' then 'i'
    else c
  }

  function Lower(s: string): string {
    seq(|s|, i requires 0 <= i < |s| => LowerChar(s[i]))
  }

  predicate IsLowerWord(s: string) {
    forall c | c in s :: 'a' <= c <= 'z'
  }

  /** Letter by letter, and without lower-casing anything: `c` is the capital of `l`. */
  predicate IsCapitalOf(c: char, l: char) {
    'A' <= c <= 'Z' && 'a' <= l <= 'z' && c as int - 'A' as int == l as int - 'a' as int
  }

  /** A character that stands for the small letter `l` in a word. */
  predicate StandsFor(c: char, l: char) {
    c == l || IsCapitalOf(c, l) || (l == 'k' && c == '\U{212A}') || (l == 'i' && c == '\U{0130}')
  }

  /** `text` writes the lower-case word `word`, in small letters, capitals, or both. */
  predicate Spells(text: string, word: string) {
    |text| == |word| && forall i | 0 <= i < |word| :: StandsFor(text[i], word[i])
  }

  /** The two differ only in which of their letters are capitals. */
  predicate SameLetters(a: string, b: string) {
    |a| == |b| && forall i | 0 <= i < |a| :: a[i] == b[i] || IsCapitalOf(a[i], b[i]) || IsCapitalOf(b[i], a[i])
  }

  lemma StandsForIff(c: char, l: char)
    requires 'a' <= l <= 'z'
    ensures StandsFor(c, l) <==> LowerChar(c) == l
  {
  }

  /** Exactly the spellings of a word are lower-cased to it. */
  lemma SpellsIff(text: string, word: string)
    requires IsLowerWord(word)
    ensures Spells(text, word) <==> Lower(text) == word
  {
    forall i | 0 <= i < |word| && |text| == |word|
      ensures StandsFor(text[i], word[i]) <==> Lower(text)[i] == word[i]
    {
      assert word[i] in word;
      StandsForIff(text[i], word[i]);
    }
  }

  lemma SameLettersLower(a: string, b: string)
    requires SameLetters(a, b)
    ensures Lower(a) == Lower(b)
  {
  }

  // --- Split and join ---------------------------------------------------------------

  /** The pieces of `s` between the separators: always at least one. */
  function Split(s: string, sep: char): (pieces: seq<string>)
    ensures |pieces| >= 1
  {
    if s == "" then [""]
    else
      var rest := Split(s[1..], sep);
      if s[0] == sep then [""] + rest
      else [[s[0]] + rest[0]] + rest[1..]
  }

  function Join(pieces: seq<string>, sep: char): string {
    if pieces == [] then ""
    else if |pieces| == 1 then pieces[0]
    else pieces[0] + [sep] + Join(pieces[1..], sep)
  }

  lemma {:induction false} SplitPiecesAvoidSeparator(s: string, sep: char)
    ensures forall p | p in Split(s, sep) :: sep !in p
  {
    if s != "" {
      SplitPiecesAvoidSeparator(s[1..], sep);
    }
  }

  lemma {:induction false} SplitOfPrefixed(a: string, sep: char, b: string)
    requires sep !in a
    ensures Split(a + [sep] + b, sep) == [a] + Split(b, sep)
  {
    var s := a + [sep] + b;
    if a == "" {
      assert s[1..] == b;
    } else {
      assert s[1..] == a[1..] + [sep] + b;
      SplitOfPrefixed(a[1..], sep, b);
      assert [a[0]] + a[1..] == a;
    }
  }

  lemma {:induction false} SplitOfWhole(a: string, sep: char)
    requires sep !in a
    ensures Split(a, sep) == [a]
  {
    if a != "" {
      SplitOfWhole(a[1..], sep);
      assert [a[0]] + a[1..] == a;
    }
  }

  /** Joining undoes splitting. */
  lemma {:induction false} JoinOfSplit(s: string, sep: char)
    ensures Join(Split(s, sep), sep) == s
  {
    if s != "" {
      JoinOfSplit(s[1..], sep);
      var rest := Split(s[1..], sep);
      if s[0] == sep {
        assert ([""] + rest)[1..] == rest;
      } else if |rest| == 1 {
        assert rest[1..] == [];
      } else {
        var pieces := [[s[0]] + rest[0]] + rest[1..];
        assert pieces[1..] == rest[1..];
        assert [s[0]] + (rest[0] + [sep] + Join(rest[1..], sep)) == s;
      }
    }
  }

  /** Splitting undoes joining, for pieces without the separator. */
  lemma {:induction false} SplitOfJoin(pieces: seq<string>, sep: char)
    requires |pieces| >= 1
    requires forall p | p in pieces :: sep !in p
    ensures Split(Join(pieces, sep), sep) == pieces
  {
    if |pieces| == 1 {
      SplitOfWhole(pieces[0], sep);
    } else {
      SplitOfJoin(pieces[1..], sep);
      SplitOfPrefixed(pieces[0], sep, Join(pieces[1..], sep));
      assert [pieces[0]] + pieces[1..] == pieces;
    }
  }

  // --- Decimal integers -------------------------------------------------------------

  const MAX_INT: int := 0x7fff_ffff_ffff_ffff

  predicate IsDigit(c: char) {
    '0' <= c <= '9'
  }

  predicate AllDigits(s: string) {
    forall i | 0 <= i < |s| :: IsDigit(s[i])
  }

  function DigitsValue(s: string): nat
    requires AllDigits(s)
  {
    if s == "" then 0
    else 10 * DigitsValue(s[..|s| - 1]) + (s[|s| - 1] as int - '0' as int)
  }

  /** `strconv.Atoi`: an optional sign, then one or more digits, within 64 bits. */
  function Atoi(s: string): Option<int> {
    var signed := |s| > 0 && (s[0] == '-' || s[0] == '+');
    var digits := if signed then s[1..] else s;
    if digits == "" || !AllDigits(digits) then None
    else
      var magnitude: int := DigitsValue(digits);
      var n := if signed && s[0] == '-' then -magnitude else magnitude;
      if -MAX_INT - 1 <= n <= MAX_INT then Some(n) else None
  }

  function Power10(n: nat): nat {
    if n == 0 then 1 else 10 * Power10(n - 1)
  }

  /** What digits denote, each by its place. */
  function Positional(s: string): nat
    requires AllDigits(s)
  {
    if s == "" then 0
    else (s[0] as int - '0' as int) * Power10(|s| - 1) + Positional(s[1..])
  }

  lemma TimesTen(d: int, n: int)
    ensures 10 * (d * n) == d * (10 * n)
  {
  }

  lemma {:induction false} DigitsValueSplits(c: char, s: string)
    requires IsDigit(c) && AllDigits(s)
    ensures AllDigits([c] + s)
    ensures DigitsValue([c] + s) == (c as int - '0' as int) * Power10(|s|) + DigitsValue(s)
  {
    var whole := [c] + s;
    if s == "" {
      assert whole[..0] == "";
    } else {
      var front := s[..|s| - 1];
      DigitsValueSplits(c, front);
      assert whole[..|whole| - 1] == [c] + front && whole[|whole| - 1] == s[|s| - 1];
      TimesTen(c as int - '0' as int, Power10(|front|));
    }
  }

  lemma {:induction false} PositionalIsValue(s: string)
    requires AllDigits(s)
    ensures Positional(s) == DigitsValue(s)
  {
    if s != "" {
      PositionalIsValue(s[1..]);
      DigitsValueSplits(s[0], s[1..]);
      assert [s[0]] + s[1..] == s;
    }
  }

  /** `s` is this sign and these digits, and denotes the 64-bit integer `n`. */
  predicate IsSigned(s: string, n: int, sign: string, digits: string) {
    s == sign + digits && (sign == "" || sign == "+" || sign == "-") && digits != "" && AllDigits(digits) &&
    n == (if sign == "-" then 0 - Positional(digits) else Positional(digits)) &&
    -0x8000_0000_0000_0000 <= n < 0x8000_0000_0000_0000
  }

  ghost predicate WritesInteger(s: string, n: int) {
    exists sign, digits :: IsSigned(s, n, sign, digits)
  }

  /** A text is read as `n` exactly if it is a way to write `n`; any other text, such as "2h",
      is no integer. */
  lemma AtoiIff(s: string, n: int)
    ensures Atoi(s) == Some(n) <==> WritesInteger(s, n)
  {
    if Atoi(s) == Some(n) {
      ReadIsWritten(s, n);
    }
    if WritesInteger(s, n) {
      var sign, digits :| IsSigned(s, n, sign, digits);
      WrittenIsRead(s, n, sign, digits);
    }
  }

  lemma ReadIsWritten(s: string, n: int)
    requires Atoi(s) == Some(n)
    ensures WritesInteger(s, n)
  {
    var signed := s[0] == '-' || s[0] == '+';
    var sign, digits := if signed then s[..1] else "", if signed then s[1..] else s;
    PositionalIsValue(digits);
    assert IsSigned(s, n, sign, digits);
  }

  lemma WrittenIsRead(s: string, n: int, sign: string, digits: string)
    requires IsSigned(s, n, sign, digits)
    ensures Atoi(s) == Some(n)
  {
    PositionalIsValue(digits);
    assert digits == if sign == "" then s else s[1..];
    assert IsDigit(digits[0]);
  }

  ghost predicate WritesNoInteger(s: string) {
    forall n :: !WritesInteger(s, n)
  }

  lemma AtoiNoneIff(s: string)
    ensures Atoi(s).None? <==> WritesNoInteger(s)
  {
    if Atoi(s).Some? {
      AtoiIff(s, Atoi(s).value);
    }
    if n :| WritesInteger(s, n) {
      AtoiIff(s, n);
    }
  }

  function Decimal(n: nat): string {
    var last := [(n % 10 + '0' as int) as char];
    if n < 10 then last else Decimal(n / 10) + last
  }

  function FormatInt(n: int): string {
    if n < 0 then "-" + Decimal(-n) else Decimal(n)
  }

  lemma {:induction false} DecimalDenotes(n: nat)
    ensures Decimal(n) != "" && AllDigits(Decimal(n))
    ensures DigitsValue(Decimal(n)) == n
  {
    var last := [(n % 10 + '0' as int) as char];
    if n >= 10 {
      DecimalDenotes(n / 10);
      assert Decimal(n)[..|Decimal(n)| - 1] == Decimal(n / 10);
    } else {
      assert Decimal(n)[..0] == "";
    }
  }

  /** Reading back a printed integer gives the integer, over the whole 64-bit range. */
  lemma AtoiOfFormatInt(n: int)
    requires -MAX_INT - 1 <= n <= MAX_INT
    ensures Atoi(FormatInt(n)) == Some(n)
  {
    var magnitude := if n < 0 then -n else n;
    DecimalDenotes(magnitude);
    PositionalIsValue(Decimal(magnitude));
    WrittenIsRead(FormatInt(n), n, if n < 0 then "-" else "", Decimal(magnitude));
  }

  lemma FormatIntCharacters(n: int)
    ensures forall c | c in FormatInt(n) :: IsDigit(c) || c == '-'
  {
    DecimalDenotes(if n < 0 then -n else n);
  }
}
