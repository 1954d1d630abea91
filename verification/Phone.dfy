/** Phone numbers. What is stored is a plus sign, the dial code, a blank and the
    national part. Strings are sequences of Unicode characters; form fields may
    hold anything. */
module Phone {

  datatype Joined = Stored(value: string) | NeedsCountryCode | InvalidCountryCode | InvalidNumber

  predicate IsDigit(c: char) { '0' <= c <= '9' }

  predicate IsPunctuation(c: char) { c == ' ' || c == '-' || c == '.' || c == '(' || c == ')' }

  /** White space as strings.TrimSpace sees it. */
  predicate IsSpace(c: char) {
    '\t' <= c <= '\r' || c == ' ' || c == '\U{85}' || c == '\U{A0}' || c == '\U{1680}' ||
    '\U{2000}' <= c <= '\U{200A}' || c == '\U{2028}' || c == '\U{2029}' || c == '\U{202F}' || c == '\U{205F}' || c == '\U{3000}'
  }

  function TrimLeft(s: string): string {
    if s != "" && IsSpace(s[0]) then TrimLeft(s[1..]) else s
  }

  function TrimRight(s: string): string {
    if s != "" && IsSpace(s[|s| - 1]) then TrimRight(s[..|s| - 1]) else s
  }

  function TrimSpace(s: string): string {
    TrimRight(TrimLeft(s))
  }

  predicate Trimmed(s: string) {
    s == "" || (!IsSpace(s[0]) && !IsSpace(s[|s| - 1]))
  }

  lemma {:induction false} TrimLeftDone(s: string)
    ensures TrimLeft(s) == "" || !IsSpace(TrimLeft(s)[0])
  {
    if s != "" && IsSpace(s[0]) {
      TrimLeftDone(s[1..]);
    }
  }

  lemma {:induction false} TrimRightDone(s: string)
    ensures TrimRight(s) <= s
    ensures TrimRight(s) == "" || !IsSpace(TrimRight(s)[|TrimRight(s)| - 1])
  {
    if s != "" && IsSpace(s[|s| - 1]) {
      TrimRightDone(s[..|s| - 1]);
    }
  }

  lemma TrimSpaceTrims(s: string)
    ensures Trimmed(TrimSpace(s))
  {
    TrimLeftDone(s);
    TrimRightDone(TrimLeft(s));
  }

  // ---- Digits ----

  function DigitsOf(s: string): (r: string)
    ensures forall i :: 0 <= i < |r| ==> IsDigit(r[i])
  {
    if s == "" then "" else DigitsOf(s[..|s| - 1]) + if IsDigit(s[|s| - 1]) then [s[|s| - 1]] else ""
  }

  method DigitsOnly(s: string) returns (r: string)
    ensures r == DigitsOf(s)
  {
    r := "";
    for i := 0 to |s|
      invariant r == DigitsOf(s[..i])
    {
      assert s[..i + 1][..i] == s[..i];
      if IsDigit(s[i]) {
        r := r + [s[i]];
      }
    }
    assert s[..|s|] == s;
  }

  predicate AllDigits(s: string) {
    forall i :: 0 <= i < |s| ==> IsDigit(s[i])
  }

  predicate IsDigits(s: string) {
    s != "" && DigitsOf(s) == s
  }

  lemma {:induction false} DigitsOfDigits(s: string)
    requires AllDigits(s)
    ensures DigitsOf(s) == s
  {
    if s != "" {
      DigitsOfDigits(s[..|s| - 1]);
      assert s == s[..|s| - 1] + [s[|s| - 1]];
    }
  }

  lemma IsDigitsMeans(s: string)
    ensures IsDigits(s) <==> s != "" && AllDigits(s)
  {
    if s != "" && AllDigits(s) {
      DigitsOfDigits(s);
    }
  }

  lemma {:induction false} DigitsOfConcat(a: string, b: string)
    ensures DigitsOf(a + b) == DigitsOf(a) + DigitsOf(b)
  {
    if b == "" {
      assert a + b == a;
    } else {
      DigitsOfConcat(a, b[..|b| - 1]);
      assert (a + b)[..|a + b| - 1] == a + b[..|b| - 1];
    }
  }

  /** Only digits and the punctuation people write numbers with, and a digit. */
  predicate Phoneish(s: string) {
    && (forall i :: 0 <= i < |s| ==> IsDigit(s[i]) || IsPunctuation(s[i]))
    && (exists i :: 0 <= i < |s| && IsDigit(s[i]))
  }

  method IsPhoneish(s: string) returns (r: bool)
    ensures r <==> Phoneish(s)
  {
    var seenDigit := false;
    for i := 0 to |s|
      invariant forall j :: 0 <= j < i ==> IsDigit(s[j]) || IsPunctuation(s[j])
      invariant seenDigit <==> exists j :: 0 <= j < i && IsDigit(s[j])
    {
      if IsDigit(s[i]) {
        seenDigit := true;
      } else if !IsPunctuation(s[i]) {
        return false;
      }
    }
    r := seenDigit;
  }

  /** "+<digits>" with 2 to 15 digits and no leading zero. */
  predicate IsE164(s: string) {
    |s| > 0 && s[0] == '+' && 2 <= |s[1..]| <= 15 && s[1..][0] != '0' && IsDigits(s[1..])
  }

  // ---- Splitting and joining ----

  /** The text before and after the first blank, if there is one. */
  function FirstBlank(s: string): (i: nat)
    ensures i <= |s| && (i < |s| ==> s[i] == ' ') && forall j :: 0 <= j < i ==> s[j] != ' '
  {
    if s == "" || s[0] == ' ' then 0 else 1 + FirstBlank(s[1..])
  }

  function SplitPhone(stored: string): (string, string) {
    var s := TrimSpace(stored);
    if s == "" || s[0] != '+' then ("", s)
    else
      var i := FirstBlank(s[1..]);
      var code := s[1..][..i];
      if i == |s[1..]| || code == "" || !IsDigits(code) then ("", s)
      else (code, TrimSpace(s[1..][i + 1..]))
  }

  function TrimPlus(s: string): string {
    if s != "" && s[0] == '+' then s[1..] else s
  }

  function Compact(s: string): string {
    "+" + DigitsOf(s)
  }

  function JoinPhone(codeField: string, numberField: string): Joined {
    var code, national := TrimPlus(TrimSpace(codeField)), TrimSpace(numberField);
    if national == "" then Stored("")
    else if code == "" then
      // without a code the number has to bring its own, behind a plus sign
      if national[0] == '+' && Phoneish(national[1..]) && IsE164(Compact(national)) then
        var digits := DigitsOf(national);
        Stored("+" + digits[..1] + " " + digits[1..])
      else NeedsCountryCode
    else if !IsDigits(code) || |code| > 4 then InvalidCountryCode
    else if !Phoneish(national) || !IsE164("+" + code + DigitsOf(national)) then InvalidNumber
    else Stored(StoredAs(code, national))
  }

  function StoredAs(code: string, national: string): string {
    "+" + code + " " + national
  }

  /** The two halves a stored value is made of. */
  ghost predicate WellFormed(code: string, national: string) {
    && IsDigits(code) && |code| <= 4
    && Trimmed(national) && Phoneish(national)
    && IsE164("+" + code + DigitsOf(national))
  }

  /** The halves joinPhone stores for an accepted, non-empty pair of fields. */
  function Halves(codeField: string, numberField: string): (string, string) {
    var code, national := TrimPlus(TrimSpace(codeField)), TrimSpace(numberField);
    if code != "" then (code, national)
    else
      var digits := DigitsOf(national);
      if digits == "" then ("", "") else (digits[..1], digits[1..])
  }

  /** What is stored is well formed: a dial code, a blank and a national number
      that together satisfy the digit rule of E.164. */
  lemma JoinedIsWellFormed(codeField: string, numberField: string)
    requires JoinPhone(codeField, numberField).Stored? && JoinPhone(codeField, numberField).value != ""
    ensures var (code, national) := Halves(codeField, numberField);
      && WellFormed(code, national)
      && JoinPhone(codeField, numberField).value == StoredAs(code, national)
  {
    TrimSpaceTrims(numberField);
    var code, national := TrimPlus(TrimSpace(codeField)), TrimSpace(numberField);
    if code == "" {
      var digits := DigitsOf(national);
      assert Compact(national)[1..] == digits;
      PastedIsWellFormed(digits);
    }
  }

  lemma PastedIsWellFormed(digits: string)
    requires IsE164("+" + digits)
    ensures WellFormed(digits[..1], digits[1..])
  {
    assert ("+" + digits)[1..] == digits;
    IsDigitsMeans(digits);
    IsDigitsMeans(digits[..1]);
    IsDigitsMeans(digits[1..]);
    DigitsOfDigits(digits[1..]);
    assert "+" + digits[..1] + digits[1..] == "+" + digits;
    assert IsDigit(digits[1..][0]);
    assert forall c :: IsDigit(c) ==> !IsSpace(c);
  }

  /** Reading a stored value back gives exactly its two halves. */
  lemma SplitOfStored(code: string, national: string)
    requires WellFormed(code, national)
    ensures SplitPhone(StoredAs(code, national)) == (code, national)
  {
    var s := StoredAs(code, national);
    IsDigitsMeans(code);
    assert s[0] == '+' && s[|s| - 1] == national[|national| - 1];
    assert TrimSpace(s) == s && TrimSpace(national) == national;
    SplitMeans(s, code, national);
  }

  lemma JoinOfHalves(code: string, national: string)
    requires WellFormed(code, national)
    ensures JoinPhone(code, national) == Stored(StoredAs(code, national))
  {
    IsDigitsMeans(code);
    assert IsDigit(code[0]) && IsDigit(code[|code| - 1]);
  }

  /** Every accepted pair of fields with a number: splitting the stored value gives
      the digit code and the national part, and joining that split again gives the
      stored value, also for pasted international numbers. */
  lemma RoundTrip(codeField: string, numberField: string)
    requires JoinPhone(codeField, numberField).Stored? && JoinPhone(codeField, numberField).value != ""
    ensures var stored := JoinPhone(codeField, numberField).value;
      && SplitPhone(stored) == Halves(codeField, numberField)
      && JoinPhone(SplitPhone(stored).0, SplitPhone(stored).1) == Stored(stored)
  {
    JoinedIsWellFormed(codeField, numberField);
    var (code, national) := Halves(codeField, numberField);
    SplitOfStored(code, national);
    JoinOfHalves(code, national);
  }

  /** Which fields are accepted: no number at all, or halves that are well formed,
      where a number without a code has to bring its own plus sign. */
  lemma AcceptedIff(codeField: string, numberField: string)
    ensures var code, national := TrimPlus(TrimSpace(codeField)), TrimSpace(numberField);
      JoinPhone(codeField, numberField).Stored? <==>
        || national == ""
        || (code != "" && WellFormed(code, national))
        || (code == "" && national[0] == '+' && Phoneish(national[1..]) && |DigitsOf(national)| <= 15 &&
            |DigitsOf(national)| >= 2 && DigitsOf(national)[0] != '0')
  {
    TrimSpaceTrims(numberField);
    var national := TrimSpace(numberField);
    assert Compact(national)[1..] == DigitsOf(national);
    IsDigitsMeans(DigitsOf(national));
  }

  /** What the two fields make of each other, in all cases: no number, a number without a
      code, which brings its own, and a number with one. Pasted numbers keep their digits
      and are split behind the first. */
  lemma JoinMeans(codeField: string, numberField: string)
    ensures forall typed: string :: typed != "" ==> TrimPlus("+" + typed) == typed && (typed[0] != '+' ==> TrimPlus(typed) == typed)
    ensures var code, national := TrimPlus(TrimSpace(codeField)), TrimSpace(numberField);
      var digits, r := DigitsOf(national), JoinPhone(codeField, numberField);
      && (national == "" ==> r == Stored(""))
      && (national != "" && code == "" ==>
          r == if national[0] == '+' && Phoneish(national[1..]) && 2 <= |digits| <= 15 && digits[0] != '0'
               then Stored("+" + [digits[0], ' '] + digits[1..]) else NeedsCountryCode)
      && (national != "" && code != "" ==>
          r == if |code| > 4 || exists i :: 0 <= i < |code| && !('0' <= code[i] <= '9') then InvalidCountryCode
               else if !Phoneish(national) || |code| + |digits| < 2 || |code| + |digits| > 15 || code[0] == '0' then InvalidNumber
               else Stored("+" + code + " " + national))
  {
    var code, national := TrimPlus(TrimSpace(codeField)), TrimSpace(numberField);
    if national != "" {
      if code == "" {
        PastedMeans(national);
      } else {
        IsDigitsMeans(code);
        WithCodeE164(code, DigitsOf(national));
      }
    }
  }

  lemma PastedMeans(national: string)
    ensures var digits := DigitsOf(national);
      && (IsE164(Compact(national)) <==> 2 <= |digits| <= 15 && digits[0] != '0')
      && (digits != "" ==> "+" + digits[..1] + " " + digits[1..] == "+" + [digits[0], ' '] + digits[1..])
  {
    var digits := DigitsOf(national);
    assert Compact(national)[1..] == digits;
    IsDigitsMeans(digits);
    if digits != "" {
      assert digits[..1] + " " == [digits[0], ' '];
      assert "+" + digits[..1] + " " == "+" + (digits[..1] + " ");
    }
  }

  lemma WithCodeE164(code: string, digits: string)
    requires code != "" && AllDigits(digits)
    ensures AllDigits(code) ==> (IsE164("+" + code + digits) <==> 2 <= |code| + |digits| <= 15 && code[0] != '0')
  {
    assert ("+" + code + digits)[1..] == code + digits;
    IsDigitsMeans(code + digits);
  }

  /** The characters of a number: digits, blanks, hyphens, dots and parentheses. */
  lemma PhoneishMeans(s: string)
    ensures Phoneish(s) <==> (forall i :: 0 <= i < |s| ==> s[i] in "0123456789 -.()") && (exists i :: 0 <= i < |s| && s[i] in "0123456789")
  {
    var digits := "0123456789";
    forall c: char ensures '0' <= c <= '9' <==> c in digits {
      if '0' <= c <= '9' {
        assert c == digits[c as int - '0' as int];
      }
    }
  }

  /** A code is split off if and only if the value is a plus sign, digits, a blank and
      the rest, which is then the number. */
  lemma SplitMeans(stored: string, code: string, rest: string)
    requires code != "" && forall i :: 0 <= i < |code| ==> '0' <= code[i] <= '9'
    ensures TrimSpace(stored) == "+" + code + " " + rest ==> SplitPhone(stored) == (code, TrimSpace(rest))
    ensures SplitPhone(stored).0 == code ==> exists national :: TrimSpace(stored) == "+" + code + " " + national
  {
    var s := TrimSpace(stored);
    IsDigitsMeans(code);
    if s == "+" + code + " " + rest {
      assert s[1..] == code + " " + rest;
      assert s[1..][|code|] == ' ' && forall j :: 0 <= j < |code| ==> s[1..][j] == code[j];
      assert FirstBlank(s[1..]) == |code|;
      assert s[1..][..|code|] == code && s[1..][|code| + 1..] == rest;
    }
    if SplitPhone(stored).0 == code {
      var i := FirstBlank(s[1..]);
      assert s == "+" + code + " " + s[1..][i + 1..];
    }
  }

  /** White space is what Unicode calls so: five control characters, the blanks and the
      separators of lines and paragraphs. */
  lemma WhiteSpace(c: char)
    ensures IsSpace(c) <==>
      9 <= c as int <= 13 || 0x2000 <= c as int <= 0x200A || c as int in {0x20, 0x85, 0xA0, 0x1680, 0x2028, 0x2029, 0x202F, 0x205F, 0x3000}
  {
  }

  /** Trimming takes white space off both ends and nothing else. */
  lemma TrimSpaceMeans(s: string) returns (a: string, b: string)
    ensures s == a + TrimSpace(s) + b && Trimmed(TrimSpace(s))
    ensures (forall i :: 0 <= i < |a| ==> IsSpace(a[i])) && (forall i :: 0 <= i < |b| ==> IsSpace(b[i]))
  {
    TrimSpaceTrims(s);
    a := TrimLeftMeans(s);
    b := TrimRightMeans(TrimLeft(s));
  }

  lemma {:induction false} TrimLeftMeans(s: string) returns (a: string)
    ensures s == a + TrimLeft(s) && forall i :: 0 <= i < |a| ==> IsSpace(a[i])
  {
    a := "";
    if s != "" && IsSpace(s[0]) {
      a := TrimLeftMeans(s[1..]);
      a := [s[0]] + a;
    }
  }

  lemma {:induction false} TrimRightMeans(s: string) returns (b: string)
    ensures s == TrimRight(s) + b && forall i :: 0 <= i < |b| ==> IsSpace(b[i])
  {
    b := "";
    if s != "" && IsSpace(s[|s| - 1]) {
      b := TrimRightMeans(s[..|s| - 1]);
      b := b + [s[|s| - 1]];
    }
  }

  /** The digits of a stored number obey section 6 of ITU-T E.164. */
  lemma StoredDigits(codeField: string, numberField: string)
    requires JoinPhone(codeField, numberField).Stored? && JoinPhone(codeField, numberField).value != ""
    ensures var digits := DigitsOf(JoinPhone(codeField, numberField).value);
      2 <= |digits| <= 15 && digits[0] != '0' && AllDigits(digits)
  {
    JoinedIsWellFormed(codeField, numberField);
    var (code, national) := Halves(codeField, numberField);
    DigitsOfWellFormed(code, national);
  }

  lemma DigitsOfWellFormed(code: string, national: string)
    requires WellFormed(code, national)
    ensures var digits := DigitsOf(StoredAs(code, national));
      2 <= |digits| <= 15 && digits[0] != '0' && AllDigits(digits)
  {
    DigitsOfStored(code, national);
    var digits := code + DigitsOf(national);
    assert ("+" + code + DigitsOf(national))[1..] == digits;
    IsDigitsMeans(code);
  }

  lemma DigitsOfStored(code: string, national: string)
    requires IsDigits(code)
    ensures DigitsOf(StoredAs(code, national)) == code + DigitsOf(national)
  {
    var plus, head := "+" + code, "+" + code + " ";
    DigitsOfConcat("+", code);
    assert DigitsOf(plus) == code;
    DigitsOfConcat(plus, " ");
    assert DigitsOf(head) == code;
    DigitsOfConcat(head, national);
  }

  ghost predicate InStoredFormat(s: string) {
    exists code, rest :: code != "" && AllDigits(code) && s == StoredAs(code, rest)
  }

  /** Anything that is not in the stored format, and nothing else, is shown whole, trimmed
      only. */
  lemma ForeignValuesKept(stored: string)
    ensures !InStoredFormat(TrimSpace(stored)) ==> SplitPhone(stored) == ("", TrimSpace(stored))
    ensures SplitPhone(stored).0 == "" ==> !InStoredFormat(TrimSpace(stored)) && SplitPhone(stored).1 == TrimSpace(stored)
  {
    var s := TrimSpace(stored);
    if SplitPhone(stored).0 != "" {
      var i := FirstBlank(s[1..]);
      var code := s[1..][..i];
      IsDigitsMeans(code);
      assert s == StoredAs(code, s[1..][i + 1..]);
    } else if InStoredFormat(s) {
      var code, rest :| code != "" && AllDigits(code) && s == StoredAs(code, rest);
      SplitMeans(stored, code, rest);
      assert false;
    }
  }
}
