/** ASCII text as the Go standard library sees it: character classes, `strings.Split`, `Join`,
    `Fields` and `TrimSpace`, and `strconv.Itoa`/`Atoi` on 64-bit integers. */
module Text {

  const MAX_INT: int := 0x7FFF_FFFF_FFFF_FFFF
  const MIN_INT: int := -0x8000_0000_0000_0000

  predicate IsInt64(n: int) {
    MIN_INT <= n <= MAX_INT
  }

  /* Characters */

  predicate IsAscii(c: char) {
    c as int < 128
  }

  predicate Ascii(s: string) {
    forall i :: 0 <= i < |s| ==> IsAscii(s[i])
  }

  /** Text all of whose bytes are ASCII, the inputs this model covers. */
  type AsciiText = s: string | Ascii(s) witness ""

  predicate IsDigit(c: char) {
    '0' <= c <= '9'
  }

  predicate IsLetter(c: char) {
    'a' <= c <= 'z' || 'A' <= c <= 'Z'
  }

  predicate IsAlnum(c: char) {
    IsLetter(c) || IsDigit(c)
  }

  predicate IsSpace(c: char) {
    c == ' ' || 9 <= c as int <= 13
  }

  predicate NotSpace(c: char) {
    !IsSpace(c)
  }

  predicate All(p: char -> bool, s: string) {
    forall i :: 0 <= i < |s| ==> p(s[i])
  }

  predicate AllIn(p: char -> bool, parts: seq<string>) {
    forall i :: 0 <= i < |parts| ==> parts[i] != "" && All(p, parts[i])
  }

  function Last<T>(s: seq<T>): T
    requires s != []
  {
    s[|s| - 1]
  }

  function Init<T>(s: seq<T>): seq<T>
    requires s != []
  {
    s[..|s| - 1]
  }

  function LowerChar(c: char): char {
    if 'A' <= c <= 'Z' then (c as int + 32) as char else c
  }

  function Lower(s: string): (r: string)
    ensures |r| == |s|
  {
    seq(|s|, i requires 0 <= i < |s| => LowerChar(s[i]))
  }

  lemma LowerAppend(a: string, b: string)
    ensures Lower(a + b) == Lower(a) + Lower(b)
  {
  }

  /* Splitting on a separator and joining */

  function Split(sep: char, s: string): (r: seq<string>)
    ensures r != []
  {
    if s == "" then [""]
    else
      PushFront(sep, s[0], Split(sep, s[1..]))
  }

  function PushFront(sep: char, c: char, parts: seq<string>): (r: seq<string>)
    requires parts != []
    ensures r != []
  {
    if c == sep then [""] + parts else [[c] + parts[0]] + parts[1..]
  }

  function Join(sep: char, parts: seq<string>): string {
    if parts == [] then ""
    else if |parts| == 1 then parts[0]
    else parts[0] + [sep] + Join(sep, parts[1..])
  }

  lemma {:induction false} SplitParts(sep: char, s: string)
    ensures forall i :: 0 <= i < |Split(sep, s)| ==> sep !in Split(sep, s)[i]
  {
    if s != "" {
      SplitParts(sep, s[1..]);
    }
  }

  lemma {:induction false} JoinSplit(sep: char, s: string)
    ensures Join(sep, Split(sep, s)) == s
  {
    if s != "" {
      JoinSplit(sep, s[1..]);
      var rest := Split(sep, s[1..]);
      assert s == [s[0]] + s[1..];
      assert PushFront(sep, s[0], rest)[1..] == if s[0] == sep then rest else rest[1..];
    }
  }

  lemma {:induction false} SplitNoSep(sep: char, s: string)
    requires sep !in s
    ensures Split(sep, s) == [s]
  {
    if s != "" {
      SplitNoSep(sep, s[1..]);
      assert [s[0]] + s[1..] == s;
    }
  }

  lemma PushFrontAppend(sep: char, c: char, l: seq<string>, r: seq<string>)
    requires l != []
    ensures PushFront(sep, c, l + r) == PushFront(sep, c, l) + r
  {
  }

  lemma SplitCons(sep: char, c: char, s: string)
    ensures Split(sep, [c] + s) == PushFront(sep, c, Split(sep, s))
  {
    assert ([c] + s)[1..] == s;
  }

  lemma {:induction false} SplitAppend(sep: char, a: string, b: string)
    ensures Split(sep, a + [sep] + b) == Split(sep, a) + Split(sep, b)
  {
    if a == "" {
      SplitCons(sep, sep, b);
      assert a + [sep] + b == [sep] + b;
    } else {
      var u, c := a[1..], a[0];
      SplitAppend(sep, u, b);
      SplitCons(sep, c, u + [sep] + b);
      SplitCons(sep, c, u);
      assert a == [c] + u && a + [sep] + b == [c] + (u + [sep] + b);
      PushFrontAppend(sep, c, Split(sep, u), Split(sep, b));
    }
  }

  lemma {:induction false} SplitJoin(sep: char, parts: seq<string>)
    requires parts != []
    requires forall i :: 0 <= i < |parts| ==> sep !in parts[i]
    ensures Split(sep, Join(sep, parts)) == parts
  {
    SplitNoSep(sep, parts[0]);
    if |parts| > 1 {
      SplitJoin(sep, parts[1..]);
      SplitAppend(sep, parts[0], Join(sep, parts[1..]));
      assert parts == [parts[0]] + parts[1..];
    } else {
      assert parts == [parts[0]];
    }
  }

  lemma {:induction false} JoinAppend(sep: char, a: seq<string>, b: seq<string>)
    requires a != [] && b != []
    ensures Join(sep, a + b) == Join(sep, a) + [sep] + Join(sep, b)
  {
    if |a| == 1 {
      assert (a + b)[1..] == b;
    } else {
      JoinAppend(sep, a[1..], b);
      assert (a + b)[1..] == a[1..] + b;
    }
  }

  lemma {:induction false} JoinChars(sep: char, parts: seq<string>, c: char)
    requires c in Join(sep, parts)
    ensures c == sep || exists i :: 0 <= i < |parts| && c in parts[i]
  {
    if |parts| == 1 {
      assert c in parts[0];
    } else if |parts| > 1 && c != sep && c !in parts[0] {
      assert c in Join(sep, parts[1..]);
      JoinChars(sep, parts[1..], c);
      var i :| 0 <= i < |parts[1..]| && c in parts[1..][i];
      assert c in parts[i + 1];
    }
  }

  /* Maximal runs of characters in a class: `strings.Fields` is Runs(NotSpace, s) */

  function Runs(p: char -> bool, s: string): (r: seq<string>)
    ensures Open(p, s) ==> r != []
  {
    if s == "" then []
    else
      var rest := Runs(p, Init(s));
      if !p(Last(s)) then rest else Extend(rest, Last(s), Open(p, Init(s)))
  }

  /** The text ends inside a run. */
  predicate Open(p: char -> bool, s: string) {
    s != "" && p(Last(s))
  }

  function Extend(words: seq<string>, c: char, open: bool): seq<string>
    requires open ==> words != []
  {
    if open then Init(words) + [Last(words) + [c]] else words + [[c]]
  }

  lemma ExtendAppend(l: seq<string>, r: seq<string>, c: char, open: bool)
    requires open ==> r != []
    ensures Extend(l + r, c, open) == l + Extend(r, c, open)
  {
  }

  function Fields(s: string): seq<string> {
    Runs(NotSpace, s)
  }

  lemma {:induction false} RunsInClass(p: char -> bool, s: string)
    ensures AllIn(p, Runs(p, s))
  {
    if s != "" {
      RunsInClass(p, Init(s));
    }
  }

  lemma {:induction false} RunsWord(p: char -> bool, s: string)
    requires All(p, s) && s != ""
    ensures Runs(p, s) == [s]
  {
    assert s == Init(s) + [Last(s)];
    assert p(Last(s));
    if |s| > 1 {
      assert All(p, Init(s));
      RunsWord(p, Init(s));
      assert p(Last(Init(s)));
    } else {
      assert Runs(p, Init(s)) == [];
    }
  }

  lemma RunsSnoc(p: char -> bool, s: string, c: char)
    ensures Runs(p, s + [c]) == if p(c) then Extend(Runs(p, s), c, Open(p, s)) else Runs(p, s)
  {
    assert Init(s + [c]) == s;
  }

  lemma {:induction false} RunsAppend(p: char -> bool, a: string, sep: char, b: string)
    requires !p(sep)
    ensures Runs(p, a + [sep] + b) == Runs(p, a) + Runs(p, b)
  {
    if b == "" {
      RunsSnoc(p, a, sep);
      assert a + [sep] + b == a + [sep];
    } else {
      RunsAppend(p, a, sep, Init(b));
      RunsAppendStep(p, a + [sep] + Init(b), Runs(p, a), Init(b), Last(b));
      assert b == Init(b) + [Last(b)];
      assert a + [sep] + b == a + [sep] + Init(b) + [Last(b)];
    }
  }

  lemma RunsAppendStep(p: char -> bool, t: string, l: seq<string>, u: string, c: char)
    requires Runs(p, t) == l + Runs(p, u) && Open(p, t) == Open(p, u)
    ensures Runs(p, t + [c]) == l + Runs(p, u + [c])
  {
    RunsSnoc(p, t, c);
    RunsSnoc(p, u, c);
    ExtendAppend(l, Runs(p, u), c, Open(p, u));
  }

  /** Splitting into runs undoes joining them with a separator outside the class. */
  lemma {:induction false} RunsJoin(p: char -> bool, sep: char, parts: seq<string>)
    requires !p(sep) && AllIn(p, parts)
    ensures Runs(p, Join(sep, parts)) == parts
  {
    if parts != [] {
      RunsWord(p, parts[0]);
      if |parts| == 1 {
        assert parts == [parts[0]];
      } else {
        RunsJoin(p, sep, parts[1..]);
        RunsAppend(p, parts[0], sep, Join(sep, parts[1..]));
        assert parts == [parts[0]] + parts[1..];
      }
    }
  }

  /** Every run occurs in the text. */
  lemma {:induction false} RunIsInfix(p: char -> bool, s: string, k: nat) returns (at: nat)
    requires k < |Runs(p, s)|
    ensures at + |Runs(p, s)[k]| <= |s| && s[at..at + |Runs(p, s)[k]|] == Runs(p, s)[k]
    ensures k == |Runs(p, s)| - 1 && p(Last(s)) ==> at + |Runs(p, s)[k]| == |s|
  {
    var rest, run := Runs(p, Init(s)), Runs(p, s)[k];
    if k == |rest| {
      at := |s| - 1;
    } else {
      at := RunIsInfix(p, Init(s), k);
      assert Init(s)[at..at + |rest[k]|] == s[at..at + |rest[k]|];
      if run != rest[k] {
        assert s[at..|s|] == s[at..|s| - 1] + [Last(s)];
      }
    }
  }

  lemma RunsAscii(p: char -> bool, s: AsciiText)
    ensures forall i :: 0 <= i < |Runs(p, s)| ==> Ascii(Runs(p, s)[i])
  {
    forall i | 0 <= i < |Runs(p, s)|
      ensures Ascii(Runs(p, s)[i])
    {
      var at := RunIsInfix(p, s, i);
      var run := Runs(p, s)[i];
      assert forall k :: 0 <= k < |run| ==> run[k] == s[at..at + |run|][k] == s[at + k];
    }
  }

  lemma {:induction false} JoinAscii(sep: char, parts: seq<string>)
    requires IsAscii(sep) && forall i :: 0 <= i < |parts| ==> Ascii(parts[i])
    ensures Ascii(Join(sep, parts))
  {
    if |parts| > 1 {
      JoinAscii(sep, parts[1..]);
    }
  }

  /* Trimming */

  function TrimRight(p: char -> bool, s: string): string {
    if s != "" && p(Last(s)) then TrimRight(p, Init(s)) else s
  }

  function TrimLeft(p: char -> bool, s: string): string {
    if s != "" && p(s[0]) then TrimLeft(p, s[1..]) else s
  }

  lemma {:induction false} TrimRightEnd(p: char -> bool, s: string)
    ensures TrimRight(p, s) <= s
    ensures TrimRight(p, s) != "" ==> !p(Last(TrimRight(p, s)))
    ensures TrimRight(p, s) == "" ==> All(p, s)
  {
    if s != "" && p(Last(s)) {
      TrimRightEnd(p, Init(s));
    }
  }

  function Trim(p: char -> bool, s: string): string {
    TrimRight(p, TrimLeft(p, s))
  }

  function TrimSpace(s: string): string {
    Trim(IsSpace, s)
  }

  lemma TrimUntouched(p: char -> bool, s: string)
    requires s != "" ==> !p(s[0]) && !p(Last(s))
    ensures Trim(p, s) == s
  {
  }

  lemma TrimClosing(p: char -> bool, s: string, c: char)
    requires s != "" && !p(s[0]) && !p(Last(s)) && p(c)
    ensures Trim(p, s + [c]) == s
  {
    var t := s + [c];
    assert t[0] == s[0];
    assert TrimLeft(p, t) == t;
    assert Init(t) == s && Last(t) == c;
    assert TrimRight(p, s) == s;
  }

  /* Decimal integers */

  function DigitChar(d: nat): (c: char)
    requires d < 10
    ensures IsDigit(c)
  {
    ('0' as int + d) as char
  }

  function Value(s: string): nat
    requires All(IsDigit, s)
  {
    if s == "" then 0
    else
      assert All(IsDigit, Init(s));
      10 * Value(Init(s)) + (Last(s) as int - '0' as int)
  }

  function Digits(n: nat): (s: string)
    ensures s != ""
  {
    if n < 10 then [DigitChar(n)] else Digits(n / 10) + [DigitChar(n % 10)]
  }

  /** Canonical decimal: no leading zero, and reading it back gives the number. */
  lemma {:induction false} DigitsCanonical(n: nat)
    ensures All(IsDigit, Digits(n)) && Value(Digits(n)) == n
    ensures n > 0 ==> Digits(n)[0] != '0'
  {
    if n >= 10 {
      DigitsCanonical(n / 10);
      assert Init(Digits(n)) == Digits(n / 10);
    }
  }

  function Itoa(n: int): string {
    if n < 0 then "-" + Digits(-n) else Digits(n)
  }

  /** What `n, _ := strconv.Atoi(s)` leaves in n: zero on a syntax error, the nearest bound on overflow. */
  function Atoi(s: string): (n: int)
    ensures IsInt64(n)
  {
    var signed := s != "" && (s[0] == '-' || s[0] == '+');
    var body := if signed then s[1..] else s;
    if body == "" || !All(IsDigit, body) then 0
    else
      var magnitude: int := Value(body);
      var v := if signed && s[0] == '-' then -magnitude else magnitude;
      if v > MAX_INT then MAX_INT else if v < MIN_INT then MIN_INT else v
  }

  lemma AtoiItoa(n: int)
    requires IsInt64(n)
    ensures Atoi(Itoa(n)) == n
  {
    DigitsCanonical(if n < 0 then -n else n);
    if n < 0 {
      assert Itoa(n)[1..] == Digits(-n);
    } else {
      assert IsDigit(Digits(n)[0]);
    }
  }

  lemma ItoaInjective(m: int, n: int)
    requires Itoa(m) == Itoa(n)
    ensures m == n
  {
    DigitsCanonical(if m < 0 then -m else m);
    DigitsCanonical(if n < 0 then -n else n);
    assert m < 0 <==> Itoa(m)[0] == '-';
    assert n < 0 <==> Itoa(n)[0] == '-';
    if m < 0 {
      assert Itoa(m)[1..] == Digits(-m) && Itoa(n)[1..] == Digits(-n);
    }
  }

  lemma {:induction false} ItoaChars(n: int)
    ensures forall c :: c in Itoa(n) ==> IsDigit(c) || c == '-'
    ensures Itoa(n) != ""
  {
    var d := Digits(if n < 0 then -n else n);
    DigitsCanonical(if n < 0 then -n else n);
    forall c | c in Itoa(n)
      ensures IsDigit(c) || c == '-'
    {
      if c != '-' {
        assert c in d;
      }
    }
  }

  lemma ItoaAscii(n: int)
    ensures Ascii(Itoa(n))
  {
    ItoaChars(n);
    var t := Itoa(n);
    assert forall i :: 0 <= i < |t| ==> t[i] in t;
  }

  /* What the character classes, case folding, trimming and reading numbers mean */

  const UPPER_LETTERS := "ABCDEFGHIJKLMNOPQRSTUVWXYZ"
  const LOWER_LETTERS := "abcdefghijklmnopqrstuvwxyz"
  const DIGITS := "0123456789"

  lemma UpperLettersInOrder(i: nat)
    requires i < 26
    ensures UPPER_LETTERS[i] as int == 'A' as int + i
  {
  }

  lemma LowerLettersInOrder(i: nat)
    requires i < 26
    ensures LOWER_LETTERS[i] as int == 'a' as int + i
  {
  }

  lemma DigitsInOrder(i: nat)
    requires i < 10
    ensures DIGITS[i] as int == '0' as int + i
  {
  }

  /** Each capital becomes the small letter at its place in the alphabet; nothing else changes. */
  lemma CaseFolding(c: char)
    ensures forall i :: 0 <= i < 26 ==> LowerChar(UPPER_LETTERS[i]) == LOWER_LETTERS[i]
    ensures c !in UPPER_LETTERS ==> LowerChar(c) == c
  {
    forall i | 0 <= i < 26
      ensures LowerChar(UPPER_LETTERS[i]) == LOWER_LETTERS[i]
    {
      UpperLettersInOrder(i);
      LowerLettersInOrder(i);
    }
    if 'A' <= c <= 'Z' {
      UpperLettersInOrder(c as int - 'A' as int);
      assert UPPER_LETTERS[c as int - 'A' as int] == c;
    }
  }

  /** The classes, character by character. */
  lemma LettersAndDigits(c: char)
    ensures IsDigit(c) <==> c in DIGITS
    ensures IsLetter(c) <==> c in UPPER_LETTERS || c in LOWER_LETTERS
  {
    if IsDigit(c) {
      DigitsInOrder(c as int - '0' as int);
      assert DIGITS[c as int - '0' as int] == c;
    }
    if 'A' <= c <= 'Z' {
      UpperLettersInOrder(c as int - 'A' as int);
      assert UPPER_LETTERS[c as int - 'A' as int] == c;
    }
    if 'a' <= c <= 'z' {
      LowerLettersInOrder(c as int - 'a' as int);
      assert LOWER_LETTERS[c as int - 'a' as int] == c;
    }
    forall i | 0 <= i < 26
      ensures UPPER_LETTERS[i] == c ==> IsLetter(c)
      ensures LOWER_LETTERS[i] == c ==> IsLetter(c)
    {
      UpperLettersInOrder(i);
      LowerLettersInOrder(i);
    }
    forall i | 0 <= i < 10
      ensures DIGITS[i] == c ==> IsDigit(c)
    {
      DigitsInOrder(i);
    }
  }

  /** Space, tab, newline, vertical tab, form feed and carriage return. */
  lemma SpaceCharacters(c: char)
    ensures IsSpace(c) <==> c in {' ', '\t', '\n', '\U{B}', '\U{C}', '\r'}
  {
  }

  /** Trimming takes whole ends of characters in the class, and nothing else. */
  lemma {:induction false} TrimLeftTakes(p: char -> bool, s: string) returns (i: nat)
    ensures i <= |s| && TrimLeft(p, s) == s[i..] && (forall k :: 0 <= k < i ==> p(s[k])) && (i < |s| ==> !p(s[i]))
  {
    i := 0;
    if s != "" && p(s[0]) {
      i := TrimLeftTakes(p, s[1..]);
      i := i + 1;
    }
  }

  lemma {:induction false} TrimRightTakes(p: char -> bool, s: string) returns (j: nat)
    ensures j <= |s| && TrimRight(p, s) == s[..j] && (forall k :: j <= k < |s| ==> p(s[k])) && (j > 0 ==> !p(s[j - 1]))
  {
    j := |s|;
    if s != "" && p(Last(s)) {
      j := TrimRightTakes(p, Init(s));
    }
  }

  lemma TrimTakes(p: char -> bool, s: string) returns (i: nat, j: nat)
    ensures i <= j <= |s| && Trim(p, s) == s[i..j]
    ensures (forall k :: 0 <= k < i ==> p(s[k])) && (forall k :: j <= k < |s| ==> p(s[k]))
    ensures i < j ==> !p(s[i]) && !p(s[j - 1])
  {
    i := TrimLeftTakes(p, s);
    j := TrimRightTakes(p, s[i..]);
    j := j + i;
    assert s[i..][..j - i] == s[i..j];
    forall k | j <= k < |s|
      ensures p(s[k])
    {
      assert s[i..][k - i] == s[k];
    }
  }

  /** Adding characters of the class at either end makes no difference. */
  lemma TrimIgnores(p: char -> bool, a: string, s: string, b: string)
    requires All(p, a) && All(p, b)
    ensures Trim(p, a + s + b) == Trim(p, s)
  {
    TrimLeftIgnores(p, a, s + b);
    assert a + s + b == a + (s + b);
    if TrimLeft(p, s) == "" {
      var i := TrimLeftTakes(p, s);
      assert All(p, s);
      AllTrimmed(p, s + b);
      AllTrimmed(p, s);
    } else {
      TrimLeftKeeps(p, s, b);
      TrimRightIgnores(p, TrimLeft(p, s), b);
    }
  }

  lemma {:induction false} TrimLeftIgnores(p: char -> bool, a: string, s: string)
    requires All(p, a)
    ensures TrimLeft(p, a + s) == TrimLeft(p, s)
  {
    if a == "" {
      assert a + s == s;
    } else {
      assert (a + s)[1..] == a[1..] + s;
      TrimLeftIgnores(p, a[1..], s);
    }
  }

  lemma {:induction false} TrimLeftKeeps(p: char -> bool, s: string, b: string)
    requires TrimLeft(p, s) != ""
    ensures TrimLeft(p, s + b) == TrimLeft(p, s) + b
  {
    if p(s[0]) {
      assert (s + b)[1..] == s[1..] + b;
      TrimLeftKeeps(p, s[1..], b);
    }
  }

  lemma {:induction false} TrimRightIgnores(p: char -> bool, s: string, b: string)
    requires All(p, b)
    ensures TrimRight(p, s + b) == TrimRight(p, s)
  {
    if b == "" {
      assert s + b == s;
    } else {
      assert Init(s + b) == s + Init(b) && Last(s + b) == Last(b);
      TrimRightIgnores(p, s, Init(b));
    }
  }

  lemma AllTrimmed(p: char -> bool, s: string)
    requires All(p, s)
    ensures Trim(p, s) == ""
  {
    var i := TrimLeftTakes(p, s);
  }

  /** Digits without a leading zero are the decimal form of their value. */
  lemma {:induction false} CanonicalDigits(s: string)
    requires All(IsDigit, s) && s != "" && (|s| > 1 ==> s[0] != '0')
    ensures Digits(Value(s)) == s && (s[0] != '0' ==> Value(s) > 0)
  {
    assert s == Init(s) + [Last(s)];
    if |s| > 1 {
      assert All(IsDigit, Init(s)) && Init(s)[0] == s[0];
      CanonicalDigits(Init(s));
    } else {
      assert Init(s) == "";
    }
  }

  /** What is not an optional sign and digits reads as zero. */
  lemma AtoiMalformed(s: string, i: nat)
    requires i < |s| && !IsDigit(s[i]) && (i > 0 || (s[0] != '-' && s[0] != '+') || |s| == 1)
    ensures Atoi(s) == 0
  {
    if s[0] == '-' || s[0] == '+' {
      assert i > 0 ==> s[1..][i - 1] == s[i];
    }
  }

  lemma {:induction false} ValueOfZeros(zeros: string, digits: string)
    requires All(IsDigit, digits) && forall i :: 0 <= i < |zeros| ==> zeros[i] == '0'
    ensures All(IsDigit, zeros + digits) && Value(zeros + digits) == Value(digits)
  {
    if digits == "" {
      assert zeros + digits == zeros;
      if zeros != "" {
        ValueOfZeros(Init(zeros), "");
        assert Init(zeros) + "" == Init(zeros);
      }
    } else {
      assert All(IsDigit, Init(digits));
      ValueOfZeros(zeros, Init(digits));
      assert Init(zeros + digits) == zeros + Init(digits);
    }
  }

  /** The bounds of a 64-bit integer, in decimal. */
  lemma Int64Bounds()
    ensures MAX_INT == 9223372036854775807 && MIN_INT == -9223372036854775808
  {
  }

  function Clamped(n: int): int {
    if n > MAX_INT then MAX_INT else if n < MIN_INT then MIN_INT else n
  }

  lemma AtoiSigned(body: string)
    requires All(IsDigit, body) && body != ""
    ensures Atoi(body) == Clamped(Value(body))
    ensures Atoi(['+'] + body) == Clamped(Value(body)) && Atoi(['-'] + body) == Clamped(0 - Value(body))
  {
    assert IsDigit(body[0]);
    assert (['+'] + body)[1..] == body && (['-'] + body)[1..] == body;
  }

  /** Leading zeros and a plus sign are read over, a minus sign negates, and what is out of range reads as the nearest
      bound. */
  lemma AtoiReads(zeros: string, n: nat)
    requires forall i :: 0 <= i < |zeros| ==> zeros[i] == '0'
    ensures Atoi(zeros + Itoa(n)) == Clamped(n)
    ensures Atoi(['+'] + (zeros + Itoa(n))) == Clamped(n) && Atoi(['-'] + (zeros + Itoa(n))) == Clamped(0 - n)
  {
    DigitsCanonical(n);
    ValueOfZeros(zeros, Itoa(n));
    AtoiSigned(zeros + Itoa(n));
  }
}
