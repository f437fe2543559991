/** The flight-number gate of the trip form: an optional field that, when
    filled in, must read as two or three letters followed by one to four
    digits once upper-cased (the pattern ^[A-Z]{2,3}\d{1,4}$). */
module FlightNumber {
  /** `\d` without the Unicode flag: the ten ASCII digits, `Decimal.IsDigit`. */
  import opened Decimal

  predicate IsUpperLetter(c: char) {
    'A' <= c <= 'Z'
  }

  /** ASCII upper-casing of one character. */
  function UpperChar(c: char): (u: char)
    ensures 'a' <= c <= 'z' ==> IsUpperLetter(u) && u as int == c as int - 32
    ensures !('a' <= c <= 'z') ==> u == c
  {
    if 'a' <= c <= 'z' then (c as int - 32) as char else c
  }

  /** `toUpperCase`, restricted to ASCII letters. */
  function Upper(s: string): (r: string)
    ensures |r| == |s|
    ensures forall i :: 0 <= i < |s| ==> r[i] == UpperChar(s[i])
  {
    if s == [] then [] else [UpperChar(s[0])] + Upper(s[1..])
  }

  /** Length of the longest prefix made of upper-case letters. */
  function LeadingLetters(s: string): (k: nat)
    ensures k <= |s|
    ensures forall i :: 0 <= i < k ==> IsUpperLetter(s[i])
    ensures k < |s| ==> !IsUpperLetter(s[k])
  {
    if s != [] && IsUpperLetter(s[0]) then 1 + LeadingLetters(s[1..]) else 0
  }

  /** The recogniser: read the letters greedily, then demand 1 to 4 digits
      and nothing else. */
  predicate MatchesPattern(s: string) {
    var k := LeadingLetters(s);
    2 <= k <= 3 && 1 <= |s| - k <= 4 && forall i :: k <= i < |s| ==> IsDigit(s[i])
  }

  /** The pattern read declaratively: `s` splits at `k` into `k` letters and
      1 to 4 digits. */
  predicate SplitsAt(s: string, k: nat) {
    && k <= |s|
    && (forall i :: 0 <= i < k ==> IsUpperLetter(s[i]))
    && 1 <= |s| - k <= 4
    && (forall i :: k <= i < |s| ==> IsDigit(s[i]))
  }

  /** An ASCII letter of either case. */
  predicate IsLetter(c: char) {
    IsUpperLetter(c) || 'a' <= c <= 'z'
  }

  /** The pattern read on the typed text: `k` letters of either case, then
      1 to 4 digits. */
  predicate LettersThenDigits(s: string, k: nat) {
    && k <= |s|
    && (forall i :: 0 <= i < k ==> IsLetter(s[i]))
    && 1 <= |s| - k <= 4
    && (forall i :: k <= i < |s| ==> IsDigit(s[i]))
  }

  /** The check made on submit: an empty field passes; otherwise its
      upper-cased form must match. */
  predicate ValidFlightNumber(fn: string) {
    fn == [] || MatchesPattern(Upper(fn))
  }

  // ---------------------------------------------------------------------
  // Properties

  /** The greedy recogniser accepts exactly the strings of the pattern. */
  lemma {:induction false} MatchesPatternIff(s: string)
    ensures MatchesPattern(s) <==> SplitsAt(s, 2) || SplitsAt(s, 3)
  {
    var k := LeadingLetters(s);
    if SplitsAt(s, 2) || SplitsAt(s, 3) {
      var j := if SplitsAt(s, 2) then 2 else 3;
      assert !IsUpperLetter(s[j]);
      assert k == j;
    }
  }

  lemma UpperIdempotent(s: string)
    ensures Upper(Upper(s)) == Upper(s)
  {
  }

  /** Upper-case and lower-case spellings are accepted alike. */
  lemma CaseInsensitive(fn: string)
    ensures ValidFlightNumber(Upper(fn)) <==> ValidFlightNumber(fn)
  {
    UpperIdempotent(fn);
  }

  /** Upper-casing turns letters into upper-case letters and leaves digits
      and every other character's class alone. */
  lemma UpperKeepsClass(s: string, k: nat)
    ensures SplitsAt(Upper(s), k) <==> LettersThenDigits(s, k)
  {
    var u := Upper(s);
    if SplitsAt(u, k) {
      forall i | 0 <= i < k ensures IsLetter(s[i]) {
        assert u[i] == UpperChar(s[i]);
      }
      forall i | k <= i < |s| ensures IsDigit(s[i]) {
        assert u[i] == UpperChar(s[i]);
      }
    }
  }

  /** What the form accepts, stated on the text as typed: nothing at all, or
      two or three letters of either case followed by one to four digits. */
  lemma ValidFlightNumberIff(fn: string)
    ensures ValidFlightNumber(fn)
            <==> fn == [] || LettersThenDigits(fn, 2) || LettersThenDigits(fn, 3)
  {
    MatchesPatternIff(Upper(fn));
    UpperKeepsClass(fn, 2);
    UpperKeepsClass(fn, 3);
  }

  /** An accepted, non-empty flight number has 3 to 7 characters, each an
      ASCII letter or digit of either case. */
  lemma AcceptedShape(fn: string)
    requires fn != [] && ValidFlightNumber(fn)
    ensures 3 <= |fn| <= 7
    ensures forall i :: 0 <= i < |fn| ==>
              IsUpperLetter(fn[i]) || 'a' <= fn[i] <= 'z' || IsDigit(fn[i])
  {
    var u := Upper(fn);
    forall i | 0 <= i < |fn|
      ensures IsUpperLetter(fn[i]) || 'a' <= fn[i] <= 'z' || IsDigit(fn[i])
    {
      assert u[i] == UpperChar(fn[i]);
      assert IsUpperLetter(u[i]) || IsDigit(u[i]);
    }
  }

  // ---------------------------------------------------------------------
  // Worked cases

  lemma EmptyPasses()
    ensures ValidFlightNumber("")
  {
  }

  lemma AcceptsUpperCase()
    ensures ValidFlightNumber("EK202")
  {
    var s := "EK202";
    assert IsLetter(s[0]) && IsLetter(s[1]);
    assert IsDigit(s[2]) && IsDigit(s[3]) && IsDigit(s[4]);
    assert LettersThenDigits(s, 2);
    ValidFlightNumberIff(s);
  }

  lemma AcceptsLowerCase()
    ensures ValidFlightNumber("ek202")
  {
    var s := "ek202";
    assert IsLetter(s[0]) && IsLetter(s[1]);
    assert IsDigit(s[2]) && IsDigit(s[3]) && IsDigit(s[4]);
    assert LettersThenDigits(s, 2);
    ValidFlightNumberIff(s);
  }

  lemma AcceptsLongest()
    ensures ValidFlightNumber("ABC1234")
  {
    var s := "ABC1234";
    assert IsLetter(s[0]) && IsLetter(s[1]) && IsLetter(s[2]);
    assert IsDigit(s[3]) && IsDigit(s[4]) && IsDigit(s[5]) && IsDigit(s[6]);
    assert LettersThenDigits(s, 3);
    ValidFlightNumberIff(s);
  }

  lemma RejectsOneLetter()
    ensures !ValidFlightNumber("E2")
  {
    var s := "E2";
    assert |s| == 2 && !IsLetter(s[1]);
    ValidFlightNumberIff(s);
  }

  lemma RejectsNoDigits()
    ensures !ValidFlightNumber("EK")
  {
    var s := "EK";
    assert |s| == 2;
    ValidFlightNumberIff(s);
  }

  lemma RejectsFiveDigits()
    ensures !ValidFlightNumber("EK12345")
  {
    var s := "EK12345";
    assert |s| == 7 && !IsLetter(s[2]);
    ValidFlightNumberIff(s);
  }

  lemma RejectsFourLetters()
    ensures !ValidFlightNumber("ABCD12")
  {
    var s := "ABCD12";
    assert !IsDigit(s[2]) && !IsDigit(s[3]);
    ValidFlightNumberIff(s);
  }

  lemma RejectsTrailingLetter()
    ensures !ValidFlightNumber("EK20A")
  {
    var s := "EK20A";
    assert !IsLetter(s[2]) && !IsDigit(s[4]);
    ValidFlightNumberIff(s);
  }
}
