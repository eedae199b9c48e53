/**
 Phone numbers: one stored form for all spellings, and search words typed the local way that find it.
 */
module Phone {
  import opened Options
  import opened Chars
  import opened Digits
  import Like

  predicate NotDigit(c: char) { !IsDigit(c) }

  /** Digits, spaces, brackets, points and dashes, after a first plus, digit or bracket. */
  predicate LooksLikeNumber(s: string) {
    && s != [] && (s[0] == '+' || IsDigit(s[0]) || s[0] == '(')
    && forall i :: 1 <= i < |s| ==>
      IsDigit(s[i]) || IsSpace(s[i]) || s[i] == '(' || s[i] == ')' || s[i] == '.' || s[i] == '-'
  }

  /** The digits with their calling code. */
  function FullNumber(plus: bool, digits: string, callingCode: string): string {
    if plus then digits
    else if "00" <= digits then digits[2..]
    else if "0" <= digits then callingCode + digits[1..]
    else if callingCode <= digits then digits
    else callingCode + digits
  }

  function NormalizePhone(input: string, callingCode: string): Option<string> {
    var trimmed := Trim(input);
    if !LooksLikeNumber(trimmed) then None
    else
      var full := FullNumber(trimmed[0] == '+', Drop(trimmed, NotDigit), callingCode);
      if 8 <= |full| <= 15 then Some("+" + full) else None
  }

  lemma {:induction false} DropLeavesDigits(s: string)
    ensures AllDigits(Drop(s, NotDigit))
  {
    if s != [] {
      DropLeavesDigits(s[1..]);
    }
  }

  /** Stored numbers are a plus and 8 to 15 digits. */
  lemma NormalizedShape(input: string, callingCode: string)
    requires AllDigits(callingCode) && NormalizePhone(input, callingCode).Some?
    ensures var r := NormalizePhone(input, callingCode).value;
      9 <= |r| <= 16 && r[0] == '+' && AllDigits(r[1..])
  {
    DropLeavesDigits(Trim(input));
  }

  lemma TrimNothing(s: string)
    requires s != [] && !IsSpace(s[0]) && !IsSpace(s[|s| - 1])
    ensures Trim(s) == s
  {
  }

  lemma ReadStored(digits: string, callingCode: string)
    requires AllDigits(digits) && 8 <= |digits| <= 15
    ensures NormalizePhone("+" + digits, callingCode) == Some("+" + digits)
  {
    StoredLooksRight(digits);
    TrimNothing("+" + digits);
    DropNothing(digits, NotDigit);
    assert ("+" + digits)[1..] == digits;
    assert Drop("+" + digits, NotDigit) == digits;
  }

  lemma StoredLooksRight(digits: string)
    requires AllDigits(digits) && digits != []
    ensures LooksLikeNumber("+" + digits)
    ensures !IsSpace(("+" + digits)[|digits|])
  {
    var r := "+" + digits;
    forall i | 1 <= i < |r| ensures IsDigit(r[i]) {
      assert r[i] == digits[i - 1] && digits[i - 1] in digits;
    }
  }

  /** A stored number is its own stored form, whatever calling code is configured then. */
  lemma Idempotent(input: string, callingCode: string, other: string)
    requires AllDigits(callingCode) && NormalizePhone(input, callingCode).Some?
    ensures var r := NormalizePhone(input, callingCode); NormalizePhone(r.value, other) == r
  {
    var r := NormalizePhone(input, callingCode).value;
    NormalizedShape(input, callingCode);
    ReadStored(r[1..], other);
    assert r == "+" + r[1..];
  }

  // ---- what is read -----------------------------------------------------------------------------

  /** A plus, a digit or a bracket, and then digits, spaces, brackets, points and dashes. */
  lemma LooksLikeNumberIff(s: string)
    ensures LooksLikeNumber(s) <==>
      s != [] && s[0] in "+0123456789(" && forall c :: c in s[1..] ==> c in "0123456789().-" || c in SPACES
  {
    if s != [] {
      DigitIff(s[0]);
      forall i | 1 <= i < |s| ensures s[i] == s[1..][i - 1] {}
      forall i | 1 <= i < |s|
        ensures IsDigit(s[i]) || IsSpace(s[i]) || s[i] == '(' || s[i] == ')' || s[i] == '.' || s[i] == '-'
          <==> s[i] in "0123456789().-" || s[i] in SPACES
      {
        AllowedIff(s[i]);
      }
    }
  }

  lemma AllowedIff(c: char)
    ensures IsDigit(c) || IsSpace(c) || c == '(' || c == ')' || c == '.' || c == '-' <==> c in "0123456789().-" || c in SPACES
  {
    SpaceIff(c);
    DigitIff(c);
    assert c in "0123456789().-" <==> c in "0123456789" || c in "().-" by {
      assert "0123456789().-" == "0123456789" + "().-";
    }
  }

  /** A number of any country, typed with a plus or with two zeros, is stored with its digits and no others. */
  lemma InternationalIsKept(input: string, callingCode: string, digits: string)
    requires LooksLikeNumber(Trim(input))
    requires var typed := Drop(Trim(input), NotDigit);
      if Trim(input)[0] == '+' then typed == digits else typed == "00" + digits
    ensures NormalizePhone(input, callingCode) == if 8 <= |digits| <= 15 then Some("+" + digits) else None
  {
  }

  /** What does not look like a number is not read as one. */
  lemma OthersAreRefused(input: string, callingCode: string)
    requires !LooksLikeNumber(Trim(input))
    ensures NormalizePhone(input, callingCode) == None
  {
  }

  // ---- spellings --------------------------------------------------------------------------------

  predicate IsCallingCode(s: string) {
    s != [] && AllDigits(s) && s[0] != '0'
  }

  /** A national number: no trunk zero in front. */
  predicate IsNational(s: string) {
    s != [] && AllDigits(s) && s[0] != '0'
  }

  /** The ways to type a number: +code, 00code, code, 0 or nothing in front of the national digits. */
  predicate Spelling(trimmed: string, callingCode: string, national: string) {
    var digits := Drop(trimmed, NotDigit);
    && LooksLikeNumber(trimmed)
    && if trimmed[0] == '+' then digits == callingCode + national
       else || digits == "00" + callingCode + national || digits == callingCode + national || digits == "0" + national
            || (digits == national && !(callingCode <= national))
  }

  /** Main result: every spelling of a number has the same stored form. */
  lemma SpellingsAgree(input: string, callingCode: string, national: string)
    requires IsCallingCode(callingCode) && IsNational(national) && Spelling(Trim(input), callingCode, national)
    ensures NormalizePhone(input, callingCode) ==
      if 8 <= |callingCode + national| <= 15 then Some("+" + (callingCode + national)) else None
  {
    var trimmed := Trim(input);
    var digits := Drop(trimmed, NotDigit);
    var full := callingCode + national;
    assert callingCode <= full && full[0] == callingCode[0];
    if digits == "00" + callingCode + national {
      assert digits[..2] == "00" && digits[2..] == full;
    } else if digits == "0" + national {
      assert digits[0] == '0' && digits[1] == national[0] && digits[1..] == national;
    }
    assert FullNumber(trimmed[0] == '+', digits, callingCode) == full;
  }

  /** The bare national digits are read as national exactly when they do not begin like the calling code. */
  lemma BareIff(input: string, callingCode: string, national: string)
    requires IsCallingCode(callingCode) && IsNational(national)
    requires LooksLikeNumber(Trim(input)) && Trim(input)[0] != '+' && Drop(Trim(input), NotDigit) == national
    requires 8 <= |callingCode + national| <= 15
    ensures NormalizePhone(input, callingCode) == Some("+" + (callingCode + national)) <==> !(callingCode <= national)
  {
    assert national[0] != '0';
    if callingCode <= national {
      assert |"+" + national| < |"+" + (callingCode + national)|;
      assert FullNumber(false, national, callingCode) == national;
    } else {
      SpellingsAgree(input, callingCode, national);
    }
  }

  /**
   Such a number: 1111234 in area code 25, under the calling code 251. Typed with its trunk zero it is
   stored as it should be; without it the area code is taken for the calling code.
   */
  lemma AreaCodeReadAsCallingCode(typed: string, callingCode: string)
    requires typed == "251111234" && callingCode == "251"
    ensures NormalizePhone(typed, callingCode) == Some("+" + typed)
    ensures NormalizePhone("0" + typed, callingCode) == Some("+" + callingCode + typed)
  {
    BareRead(typed, callingCode);
    BareRead("0" + typed, callingCode);
    assert ("0" + typed)[1..] == typed && ("0" + typed)[1] == '2';
    assert "+" + (callingCode + typed) == "+" + callingCode + typed;
  }

  /** Bare digits are taken as they are. */
  lemma BareRead(digits: string, callingCode: string)
    requires AllDigits(digits) && digits != []
    ensures var full := FullNumber(false, digits, callingCode);
      NormalizePhone(digits, callingCode) == if 8 <= |full| <= 15 then Some("+" + full) else None
  {
    assert digits[0] in digits && digits[|digits| - 1] in digits;
    assert forall i :: 0 <= i < |digits| ==> digits[i] in digits;
    TrimNothing(digits);
    DropNothing(digits, NotDigit);
  }

  // ---- search -----------------------------------------------------------------------------------

  function StripZeros(s: string): (r: string)
    ensures r == [] || r[0] != '0'
    ensures |r| <= |s| && s[|s| - |r|..] == r
  {
    if s != [] && s[0] == '0' then StripZeros(s[1..]) else s
  }

  function PhonePattern(token: string): Option<string> {
    var local := StripZeros(Drop(token, NotDigit));
    if |local| >= 3 then Some("%" + local + "%") else None
  }

  /** A word is phone-like exactly when, from some digit that is no zero on, it has at least three digits. */
  lemma PhoneLikeIff(token: string)
    ensures var digits := Drop(token, NotDigit);
      PhonePattern(token).Some? <==> exists i :: 0 <= i <= |digits| - 3 && digits[i] != '0'
  {
    var digits := Drop(token, NotDigit);
    var local := StripZeros(digits);
    StrippedFrom(digits);
    if |local| >= 3 {
      assert digits[|digits| - |local|] == digits[|digits| - |local|..][0];
    }
  }

  lemma {:induction false} StrippedFrom(s: string)
    ensures forall i :: 0 <= i < |s| - |StripZeros(s)| ==> s[i] == '0'
  {
    if s != [] && s[0] == '0' {
      StrippedFrom(s[1..]);
      forall i | 1 <= i < |s| - |StripZeros(s)| ensures s[i] == '0' {
        assert s[i] == s[1..][i - 1];
      }
    }
  }

  /** And then it finds exactly the stored numbers that contain its digits from there. */
  lemma PatternFindsIff(token: string, pattern: string, stored: string, fold: char -> char)
    requires PhonePattern(token) == Some(pattern)
    ensures Like.Matches(stored, pattern, fold) ==>
      exists i: nat :: Like.OccursAt(stored, StripZeros(Drop(token, NotDigit)), i, fold)
    ensures forall i: nat :: Like.OccursAt(stored, StripZeros(Drop(token, NotDigit)), i, fold) ==>
      Like.Matches(stored, pattern, fold)
  {
    var local := StripZeros(Drop(token, NotDigit));
    LocalIsDigits(token);
    DigitsNeedNoEscape(local);
    assert pattern == "%" + Like.EscapeLike(local) + "%";
    Like.ContainsIff(stored, local, fold);
  }

  lemma LocalIsDigits(token: string)
    ensures AllDigits(StripZeros(Drop(token, NotDigit)))
  {
    var digits := Drop(token, NotDigit);
    var local := StripZeros(digits);
    DropLeavesDigits(token);
    assert digits == digits[..|digits| - |local|] + local;
  }

  ghost predicate Slice(s: string, whole: string) {
    exists i: nat :: SliceAt(s, whole, i)
  }

  predicate SliceAt(s: string, whole: string, i: nat) {
    i + |s| <= |whole| && whole[i..i + |s|] == s
  }

  lemma {:induction false} DigitsNeedNoEscape(s: string)
    requires AllDigits(s)
    ensures Like.EscapeLike(s) == s
  {
    if s != [] {
      assert s[0] in s;
      DigitsNeedNoEscape(s[1..]);
    }
  }

  /** Past leading zeros, a slice of zeros and a number is a slice of the number. */
  lemma SlicePastZeros(local: string, zeros: string, number: string, j: nat)
    requires SliceAt(local, zeros + number, j) && local != "" && local[0] != '0'
    requires forall k :: 0 <= k < |zeros| ==> zeros[k] == '0'
    ensures j >= |zeros| && SliceAt(local, number, j - |zeros|)
  {
    FirstOfSlice(local, zeros + number, j);
    PastZeros(zeros, number, j);
    SliceAfterFront(local, zeros, number, j);
  }

  lemma FirstOfSlice(s: string, whole: string, i: nat)
    requires SliceAt(s, whole, i) && s != ""
    ensures i < |whole| && whole[i] == s[0]
  {
    assert whole[i..i + |s|][0] == whole[i];
  }

  lemma PastZeros(zeros: string, number: string, j: nat)
    requires (forall k :: 0 <= k < |zeros| ==> zeros[k] == '0') && j < |zeros + number| && (zeros + number)[j] != '0'
    ensures j >= |zeros|
  {
  }

  lemma EndOfSlice(s: string, end: string, whole: string, i: nat)
    requires SliceAt(s, whole, i) && |end| <= |s| && s[|s| - |end|..] == end
    ensures SliceAt(end, whole, i + |s| - |end|)
  {
    var j := i + |s| - |end|;
    assert whole[i..i + |s|][|s| - |end|..] == whole[j..j + |end|];
  }

  lemma SliceAfterFront(s: string, front: string, end: string, j: nat)
    requires SliceAt(s, front + end, j) && j >= |front|
    ensures SliceAt(s, end, j - |front|)
  {
  }

  lemma PatternFindsSlice(token: string, stored: string, fold: char -> char)
    requires PhonePattern(token).Some? && Slice(StripZeros(Drop(token, NotDigit)), stored)
    ensures Like.Matches(stored, PhonePattern(token).value, fold)
  {
    var local := StripZeros(Drop(token, NotDigit));
    var i: nat :| SliceAt(local, stored, i);
    assert Like.OccursAt(stored, local, i, fold);
    PatternFindsIff(token, PhonePattern(token).value, stored, fold);
  }

  /**
   Main result: a search word whose digits are a slice of a number as it is typed, with the trunk zero or
   with the calling code behind a plus, two zeros or nothing, gives no pattern or one that finds the
   stored number.
   */
  lemma SearchFinds(token: string, callingCode: string, national: string, fold: char -> char)
    requires Slice(Drop(token, NotDigit), "0" + national) || Slice(Drop(token, NotDigit), "00" + (callingCode + national))
    ensures PhonePattern(token).Some? ==>
      Like.Matches("+" + (callingCode + national), PhonePattern(token).value, fold)
  {
    if PhonePattern(token).Some? {
      if Slice(Drop(token, NotDigit), "0" + national) {
        FoundAfterZeros(token, "0", "+" + callingCode, national, fold);
        assert "+" + callingCode + national == "+" + (callingCode + national);
      } else {
        FoundAfterZeros(token, "00", "+", callingCode + national, fold);
      }
    }
  }

  lemma FoundAfterZeros(token: string, zeros: string, front: string, number: string, fold: char -> char)
    requires Slice(Drop(token, NotDigit), zeros + number) && (forall k :: 0 <= k < |zeros| ==> zeros[k] == '0')
    requires PhonePattern(token).Some?
    ensures Like.Matches(front + number, PhonePattern(token).value, fold)
  {
    var typed := Drop(token, NotDigit);
    var i: nat :| SliceAt(typed, zeros + number, i);
    var local := StripZeros(typed);
    EndOfSlice(typed, local, zeros + number, i);
    SlicePastZeros(local, zeros, number, i + |typed| - |local|);
    assert Slice(local, number);
    SliceOfEnd(local, front, number);
    PatternFindsSlice(token, front + number, fold);
  }

  lemma SliceOfEnd(s: string, front: string, end: string)
    requires Slice(s, end)
    ensures Slice(s, front + end)
  {
    var i: nat :| SliceAt(s, end, i);
    assert SliceAt(s, front + end, |front| + i);
  }
}
