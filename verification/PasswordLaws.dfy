/** Laws of the password checks as a whole. */
module PasswordLaws {
  import opened Wrappers
  import opened Seqs
  import opened Password

  // ---- The policy only adds to the configuration ----

  /** A password accepted under a policy is accepted under the configured minimums alone. */
  lemma StricterThanConfig(cfg: Config, pass: seq<rune>, user: seq<byte>, policy: Option<Policy>)
    requires PasswordError(cfg, pass, user, policy).None?
    ensures PasswordError(cfg, pass, user, None).None?
  {
  }

  // ---- What is accepted, without the order of the checks ----

  function Positions(b: seq<byte>, c: ByteClass): set<int> {
    set i | 0 <= i < |b| && ByteClassOf(b[i]) == c
  }

  lemma {:induction false} CountIsCardinality(b: seq<byte>, c: ByteClass)
    ensures Count(b, c) == |Positions(b, c)|
  {
    if b != [] {
      var front, n := b[..|b| - 1], |b| - 1;
      CountIsCardinality(front, c);
      assert Positions(b, c) == Positions(front, c) + if ByteClassOf(b[n]) == c then {n} else {};
    }
  }

  lemma {:induction false} CountsAddUp(b: seq<byte>)
    ensures Count(b, ByteDigit) + Count(b, ByteUpper) + Count(b, ByteLower) + Count(b, ByteOther) == |b|
  {
    if b != [] {
      CountsAddUp(b[..|b| - 1]);
    }
  }

  /** How many bytes lie in that range. */
  ghost function HowMany(b: seq<byte>, lo: int, hi: int): nat {
    |set i | 0 <= i < |b| && lo <= b[i] <= hi|
  }

  /** Digits, upper and lower case letters, and all the rest. */
  ghost function Digits(b: seq<byte>): nat { HowMany(b, 48, 57) }
  ghost function Uppers(b: seq<byte>): nat { HowMany(b, 65, 90) }
  ghost function Lowers(b: seq<byte>): nat { HowMany(b, 97, 122) }
  ghost function Others(b: seq<byte>): int { |b| - Digits(b) - Uppers(b) - Lowers(b) }

  lemma CountsMean(b: seq<byte>)
    ensures Count(b, ByteDigit) == Digits(b) && Count(b, ByteUpper) == Uppers(b)
    ensures Count(b, ByteLower) == Lowers(b) && Count(b, ByteOther) == Others(b)
  {
    CountsAddUp(b);
    CountIsCardinality(b, ByteDigit);
    CountIsCardinality(b, ByteUpper);
    CountIsCardinality(b, ByteLower);
    assert Positions(b, ByteDigit) == set i | 0 <= i < |b| && 48 <= b[i] <= 57;
    assert Positions(b, ByteUpper) == set i | 0 <= i < |b| && 65 <= b[i] <= 90;
    assert Positions(b, ByteLower) == set i | 0 <= i < |b| && 97 <= b[i] <= 122;
  }

  /** What a credit adds to the length: nothing, or one for each of its characters. */
  function Added(count: int, credit: int): int {
    if credit <= 0 then 0 else if count < credit then count else credit
  }

  ghost function LengthWithCredits(pass: seq<rune>, p: Policy): int {
    WithCredits(|pass|, Digits(Bytes(pass)), Uppers(Bytes(pass)), Lowers(Bytes(pass)), Others(Bytes(pass)), p)
  }

  function WithCredits(size: int, digits: int, uppers: int, lowers: int, others: int, p: Policy): int {
    size + Added(digits, p.digitCredit) + Added(uppers, p.upperCredit) + Added(lowers, p.lowerCredit) + Added(others, p.otherCredit)
  }

  /** No stretch of more than `limit` bytes with that step; 0 or less is no limit. */
  ghost predicate NoLongRun(b: seq<byte>, limit: int, step: int) {
    limit > 0 ==> forall i, j :: IsRun(b, i, j, step) ==> j - i <= limit
  }

  /** Equal up to the case of an ASCII letter. */
  predicate SameLetter(x: byte, y: byte) {
    x == y || (65 <= x <= 90 && y == x + 32) || (65 <= y <= 90 && x == y + 32)
  }

  ghost predicate MirroredAt(b: seq<byte>, i: int) {
    0 <= i < |b| && SameLetter(b[i], b[|b| - 1 - i])
  }

  /** Not the same read backwards, upper and lower case taken as equal. */
  ghost predicate Asymmetric(b: seq<byte>) {
    exists i :: 0 <= i < |b| && !MirroredAt(b, i)
  }

  /** The lower-cased bytes from `i` on spell the word. */
  ghost predicate SpelledAt(b: seq<byte>, word: seq<byte>, i: int) {
    && 0 <= i <= |b| - |word|
    && forall k :: 0 <= k < |word| ==> word[k] == if 65 <= b[i + k] <= 90 then b[i + k] + 32 else b[i + k]
  }

  ghost predicate Backwards(word: seq<byte>, drow: seq<byte>) {
    |word| == |drow| && forall k :: 0 <= k < |word| ==> drow[k] == word[|word| - 1 - k]
  }

  /** The password holds the user name, or the user name backwards. */
  ghost predicate HoldsName(b: seq<byte>, user: seq<byte>) {
    exists i, word :: (word == user || Backwards(user, word)) && SpelledAt(b, word, i)
  }

  /** What libpwquality asks for, given the bytes of the password. */
  ghost predicate Acceptable(pass: seq<rune>, user: seq<byte>, p: Policy) {
    var b := Bytes(pass);
    && Digits(b) >= -p.digitCredit && Uppers(b) >= -p.upperCredit && Lowers(b) >= -p.lowerCredit && Others(b) >= -p.otherCredit
    && LengthWithCredits(pass, p) >= p.minLength && LengthWithCredits(pass, p) >= 6
    && Asymmetric(b)
    && NoLongRun(b, p.maxRepeat, 0) && NoLongRun(b, p.maxSequence, 1) && NoLongRun(b, p.maxSequence, -1)
    && (p.userCheck && |user| >= 4 ==> !HoldsName(b, user))
  }

  lemma NoLongRunIff(b: seq<byte>, limit: int, step: int)
    ensures NoLongRun(b, limit, step) <==> (limit > 0 ==> LongestRunOf(b, step) <= limit)
  {
    LongestIsGreatest(b, |b|, step);
    if limit > 0 && NoLongRun(b, limit, step) && b != [] {
      var i, j :| IsRun(b, i, j, step) && j <= |b| && j - i == LongestRunOf(b, step);
    }
  }

  lemma AsymmetricIff(b: seq<byte>)
    ensures Asymmetric(b) <==> Mono(b) != Reversed(Mono(b))
  {
    var m := Mono(b);
    if Asymmetric(b) {
      var i :| 0 <= i < |b| && !MirroredAt(b, i);
      assert m[i] != Reversed(m)[i];
    } else {
      SymmetricIsReversed(b, m, Reversed(m));
    }
  }

  lemma SymmetricIsReversed(b: seq<byte>, m: seq<byte>, r: seq<byte>)
    requires |b| == |m| == |r| && forall i :: 0 <= i < |b| ==> MirroredAt(b, i)
    requires forall i :: 0 <= i < |b| ==> m[i] == LowerByte(b[i])
    requires forall i :: 0 <= i < |b| ==> r[i] == m[|b| - 1 - i]
    ensures m == r
  {
    forall i | 0 <= i < |b| ensures m[i] == r[i] {
      assert MirroredAt(b, i);
    }
  }

  lemma SpelledIff(b: seq<byte>, word: seq<byte>)
    ensures Contains(Mono(b), word) <==> exists i :: SpelledAt(b, word, i)
  {
    if Contains(Mono(b), word) {
      var i: nat :| i <= |Mono(b)| && ContainsAt(Mono(b), word, i);
      assert SpelledAt(b, word, i) by {
        forall k | 0 <= k < |word| ensures word[k] == LowerByte(b[i + k]) {
          assert Mono(b)[i..i + |word|][k] == Mono(b)[i + k];
        }
      }
    }
    if i :| SpelledAt(b, word, i) {
      assert Mono(b)[i..i + |word|] == word;
      assert ContainsAt(Mono(b), word, i);
    }
  }

  lemma HoldsNameIff(b: seq<byte>, user: seq<byte>, p: Policy)
    ensures NamesUser(b, user, p) <==> p.userCheck && |user| >= 4 && HoldsName(b, user)
  {
    var resu := Reversed(user);
    SpelledIff(b, user);
    SpelledIff(b, resu);
    assert Backwards(user, resu);
    forall word | Backwards(user, word) ensures word == resu {
    }
  }

  /** Which error checkPwquality gives: that of the first requirement that fails. */
  lemma PwqualityErrorIs(pass: seq<rune>, user: seq<byte>, p: Policy)
    ensures var b := Bytes(pass);
      PwqualityError(pass, user, p) ==
      if Digits(b) < -p.digitCredit then Some(TooFewDigits)
      else if Uppers(b) < -p.upperCredit then Some(TooFewUpper)
      else if Lowers(b) < -p.lowerCredit then Some(TooFewLower)
      else if Others(b) < -p.otherCredit then Some(TooFewSpecial)
      else if LengthWithCredits(pass, p) < p.minLength || LengthWithCredits(pass, p) < 6 then
        Some(MinLength(if p.minLength < 6 then 6 else p.minLength))
      else if !Asymmetric(b) then Some(Palindrome)
      else if !NoLongRun(b, p.maxRepeat, 0) then Some(TooManyRepeats)
      else if !NoLongRun(b, p.maxSequence, 1) || !NoLongRun(b, p.maxSequence, -1) then Some(Sequence)
      else if p.userCheck && |user| >= 4 && HoldsName(b, user) then Some(ContainsUsername)
      else None
  {
    var b := Bytes(pass);
    CountsMean(b);
    BytesErrorIs(b, |pass|, user, p, Digits(b), Uppers(b), Lowers(b), Others(b));
    PatternErrorIs(b, user, p);
  }

  lemma CreditedIs(b: seq<byte>, size: nat, p: Policy)
    ensures CreditedSize(b, size, p) ==
      WithCredits(size, Count(b, ByteDigit), Count(b, ByteUpper), Count(b, ByteLower), Count(b, ByteOther), p)
  {
  }

  /** The checks of numbers come first, in the order of the classes. */
  lemma BytesErrorIs(b: seq<byte>, size: nat, user: seq<byte>, p: Policy, digits: int, uppers: int, lowers: int, others: int)
    requires digits == Count(b, ByteDigit) && uppers == Count(b, ByteUpper) && lowers == Count(b, ByteLower) && others == Count(b, ByteOther)
    ensures var credited := WithCredits(size, digits, uppers, lowers, others, p);
      BytesError(b, size, user, p) ==
      if digits < -p.digitCredit then Some(TooFewDigits)
      else if uppers < -p.upperCredit then Some(TooFewUpper)
      else if lowers < -p.lowerCredit then Some(TooFewLower)
      else if others < -p.otherCredit then Some(TooFewSpecial)
      else if credited < p.minLength || credited < 6 then Some(MinLength(if p.minLength < 6 then 6 else p.minLength))
      else PatternError(b, user, p)
  {
    CreditedIs(b, size, p);
  }

  lemma PatternErrorIs(b: seq<byte>, user: seq<byte>, p: Policy)
    ensures PatternError(b, user, p) ==
      if !Asymmetric(b) then Some(Palindrome)
      else if !NoLongRun(b, p.maxRepeat, 0) then Some(TooManyRepeats)
      else if !NoLongRun(b, p.maxSequence, 1) || !NoLongRun(b, p.maxSequence, -1) then Some(Sequence)
      else if p.userCheck && |user| >= 4 && HoldsName(b, user) then Some(ContainsUsername)
      else None
  {
    AsymmetricIff(b);
    NoLongRunIff(b, p.maxRepeat, 0);
    NoLongRunIff(b, p.maxSequence, 1);
    NoLongRunIff(b, p.maxSequence, -1);
    HoldsNameIff(b, user, p);
  }

  /** checkPwquality accepts exactly the passwords with enough characters of every
      class, the credited length, no symmetry, no long runs and no user name. */
  lemma PwqualityAcceptsIff(pass: seq<rune>, user: seq<byte>, p: Policy)
    ensures PwqualityError(pass, user, p).None? <==> Acceptable(pass, user, p)
  {
    PwqualityErrorIs(pass, user, p);
  }

  // ---- The whole check ----

  /** Some character lies in that range. */
  ghost predicate Has(pass: seq<rune>, lo: int, hi: int) {
    exists i :: 0 <= i < |pass| && lo <= pass[i] <= hi
  }

  /** The classes in use: digits, lower and upper case letters, other ASCII characters,
      and all others; less one when a character occurs three times in a row. */
  ghost function ClassesCounted(pass: seq<rune>): int {
    One(Has(pass, 48, 57)) + One(Has(pass, 97, 122)) + One(Has(pass, 65, 90)) +
    One(Has(pass, 0, 47) || Has(pass, 58, 64) || Has(pass, 91, 96) || Has(pass, 123, 127)) +
    One(Has(pass, 128, 0x10FFFF)) -
    One(exists i :: 0 <= i < |pass| - 2 && pass[i] == pass[i + 1] && pass[i] == pass[i + 2])
  }

  lemma ClassInUse(pass: seq<rune>, c: Class)
    ensures c in Classes(pass) <==> exists i :: 0 <= i < |pass| && ClassOf(pass[i]) == c
  {
  }

  lemma ClassesMean(pass: seq<rune>)
    ensures (Digit in Classes(pass) <==> Has(pass, 48, 57)) && (Lower in Classes(pass) <==> Has(pass, 97, 122))
    ensures (Upper in Classes(pass) <==> Has(pass, 65, 90)) && (EightBit in Classes(pass) <==> Has(pass, 128, 0x10FFFF))
    ensures Special in Classes(pass) <==> Has(pass, 0, 47) || Has(pass, 58, 64) || Has(pass, 91, 96) || Has(pass, 123, 127)
  {
    ClassInUse(pass, Digit);
    ClassInUse(pass, Lower);
    ClassInUse(pass, Upper);
    ClassInUse(pass, EightBit);
    ClassInUse(pass, Special);
  }

  lemma CategoriesMean(pass: seq<rune>)
    ensures Categories(pass) == ClassesCounted(pass)
  {
    CountClasses(Classes(pass));
    ClassesMean(pass);
    TripleMeans(pass);
  }

  lemma TripleMeans(pass: seq<rune>)
    ensures HasTriple(pass) <==> exists i :: 0 <= i < |pass| - 2 && pass[i] == pass[i + 1] && pass[i] == pass[i + 2]
  {
    if i :| 0 <= i < |pass| - 2 && pass[i] == pass[i + 1] && pass[i] == pass[i + 2] {
      assert TripleAt(pass, i);
    }
  }

  /** Some libpwquality field of the policy is set. */
  predicate AnyFieldSet(p: Policy) {
    !(p.maxRepeat == 0 && p.maxSequence == 0 && !p.dictCheck && !p.userCheck &&
      p.digitCredit == 0 && p.upperCredit == 0 && p.lowerCredit == 0 && p.otherCredit == 0)
  }

  /** checkPassword accepts a password if and only if it has the configured length and
      classes, the classes of the policy, and either what libpwquality asks for, where
      some of its fields is set, or the policy's plain length. */
  lemma PasswordAcceptedIff(cfg: Config, pass: seq<rune>, user: seq<byte>, policy: Option<Policy>)
    ensures PasswordError(cfg, pass, user, policy).None? <==> (
      && |pass| >= cfg.minLength && ClassesCounted(pass) >= cfg.minClasses
      && (policy.Some? ==> (
          && ClassesCounted(pass) >= policy.value.minClasses
          && if AnyFieldSet(policy.value) then Acceptable(pass, user, policy.value) else |pass| >= policy.value.minLength)))
  {
    CategoriesMean(pass);
    if policy.Some? {
      PwqualityAcceptsIff(pass, user, policy.value);
    }
  }

  /** A refused one gets the error of its length first, the larger of the minimums that
      apply being named, then of its classes, then of libpwquality. */
  lemma PasswordErrorIs(cfg: Config, pass: seq<rune>, user: seq<byte>, policy: Option<Policy>)
    ensures var r := PasswordError(cfg, pass, user, policy);
      var plain := policy.Some? && !AnyFieldSet(policy.value);
      && (|pass| < cfg.minLength && (plain ==> policy.value.minLength <= cfg.minLength) ==> r == Some(MinLength(cfg.minLength)))
      && (plain && |pass| < policy.value.minLength && cfg.minLength <= policy.value.minLength ==> r == Some(MinLength(policy.value.minLength)))
      && (|pass| >= cfg.minLength && (plain ==> |pass| >= policy.value.minLength) ==>
          if ClassesCounted(pass) < cfg.minClasses || (policy.Some? && ClassesCounted(pass) < policy.value.minClasses) then r == Some(PolicyNotMet)
          else r == if policy.Some? && AnyFieldSet(policy.value) then PwqualityError(pass, user, policy.value) else None)
  {
    CategoriesMean(pass);
  }

  // ---- Bytes ----

  /** The sequence encodes the scalar value in as many bytes as it needs: a lead byte that
      tells their number, and six bits in each continuation byte. */
  predicate Encodes(b: seq<byte>, r: rune) {
    match |b|
    case 1 => b[0] < 0x80 && r == b[0]
    case 2 => 0xC0 <= b[0] < 0xE0 && Follows(b, 1) && 0x80 <= r && r == Bits(b, 0, 0xC0) * 64 + Bits(b, 1, 0x80)
    case 3 => 0xE0 <= b[0] < 0xF0 && Follows(b, 1) && Follows(b, 2) && 0x800 <= r &&
      r == (Bits(b, 0, 0xE0) * 64 + Bits(b, 1, 0x80)) * 64 + Bits(b, 2, 0x80)
    case 4 => 0xF0 <= b[0] < 0xF8 && Follows(b, 1) && Follows(b, 2) && Follows(b, 3) && 0x10000 <= r &&
      r == ((Bits(b, 0, 0xF0) * 64 + Bits(b, 1, 0x80)) * 64 + Bits(b, 2, 0x80)) * 64 + Bits(b, 3, 0x80)
    case _ => false
  }

  function Bits(b: seq<byte>, i: nat, tag: int): int
    requires i < |b|
  {
    var x: int := b[i];
    x - tag
  }

  predicate Follows(b: seq<byte>, i: nat)
    requires i < |b|
  {
    0x80 <= b[i] < 0xC0
  }

  /** The bytes of a password are the encodings of its characters, one after the other. */
  lemma {:induction false} BytesEncode(pass: seq<rune>)
    ensures forall i :: 0 <= i < |pass| ==> Encodes(Utf8(pass[i]), pass[i])
    ensures pass != [] ==> Bytes(pass) == Bytes(pass[..|pass| - 1]) + Utf8(pass[|pass| - 1])
    ensures pass == [] ==> Bytes(pass) == []
  {
    forall i | 0 <= i < |pass| ensures Encodes(Utf8(pass[i]), pass[i]) {
      Utf8Encodes(pass[i]);
    }
  }

  lemma Utf8Encodes(r: rune)
    ensures Encodes(Utf8(r), r)
  {
    if 0x800 <= r < 0x10000 {
      assert r / 64 == r / 4096 * 64 + r / 64 % 64;
    } else if r >= 0x10000 {
      assert r / 4096 == r / 262144 * 64 + r / 4096 % 64;
      assert r / 64 == r / 4096 * 64 + r / 64 % 64;
    }
  }

  /** Bytes are compared as signed characters, which differ from them by a multiple of 256. */
  lemma SignedIsChar(b: byte)
    ensures -128 <= Signed(b) < 128 && (Signed(b) == b || Signed(b) == b - 256)
  {
  }

  // ---- Tightening a policy ----

  predicate TighterLimit(old_: int, new_: int) {
    old_ <= 0 || 0 < new_ <= old_
  }

  /** `q` is at least as strict as `p`: lower credits, higher minimum, tighter
      non-zero limits, and the user check not switched off. */
  predicate Tighter(p: Policy, q: Policy) {
    && q.digitCredit <= p.digitCredit && q.upperCredit <= p.upperCredit
    && q.lowerCredit <= p.lowerCredit && q.otherCredit <= p.otherCredit
    && p.minLength <= q.minLength
    && TighterLimit(p.maxRepeat, q.maxRepeat) && TighterLimit(p.maxSequence, q.maxSequence)
    && (p.userCheck ==> q.userCheck)
  }

  lemma TighterCredit(b: seq<byte>, p: Policy, q: Policy, c: ByteClass)
    requires Tighter(p, q) && !TooFew(b, q, c)
    ensures !TooFew(b, p, c) && Bonus(b, q, c) <= Bonus(b, p, c)
  {
  }

  /** checkPwquality accepts less and less as a policy is tightened. */
  lemma TighterAcceptsLess(pass: seq<rune>, user: seq<byte>, p: Policy, q: Policy)
    requires Tighter(p, q) && PwqualityError(pass, user, q).None?
    ensures PwqualityError(pass, user, p).None?
  {
    var b := Bytes(pass);
    TighterCredit(b, p, q, ByteDigit);
    TighterCredit(b, p, q, ByteUpper);
    TighterCredit(b, p, q, ByteLower);
    TighterCredit(b, p, q, ByteOther);
  }

  // ---- Reversal ----

  lemma ReversedBytes(pass: seq<rune>)
    requires Ascii(pass)
    ensures Ascii(Reversed(pass)) && Bytes(Reversed(pass)) == Reversed(Bytes(pass))
  {
    AsciiBytes(pass);
    AsciiBytes(Reversed(pass));
  }

  lemma {:induction false} CountConcat(a: seq<byte>, b: seq<byte>, c: ByteClass)
    ensures Count(a + b, c) == Count(a, c) + Count(b, c)
  {
    if b == [] {
      assert a + b == a;
    } else {
      CountConcat(a, b[..|b| - 1], c);
      assert (a + b)[..|a + b| - 1] == a + b[..|b| - 1];
    }
  }

  lemma {:induction false} CountReversed(b: seq<byte>, c: ByteClass)
    ensures Count(Reversed(b), c) == Count(b, c)
  {
    if b != [] {
      var front, last := b[..|b| - 1], b[|b| - 1];
      CountReversed(front, c);
      assert Reversed(b) == [last] + Reversed(front);
      CountConcat([last], Reversed(front), c);
      assert Count([last], c) == if ByteClassOf(last) == c then 1 else 0;
    }
  }

  /** Read backwards, an ascending stretch descends. */
  lemma RunReversed(b: seq<byte>, i: int, j: int, step: int)
    ensures IsRun(b, i, j, step) <==> IsRun(Reversed(b), |b| - j, |b| - i, -step)
  {
    if 0 <= i < j <= |b| {
      assert forall k :: i < k < j ==> (StepAt(b, k, step) <==> StepAt(Reversed(b), |b| - k, -step));
      if IsRun(Reversed(b), |b| - j, |b| - i, -step) {
        forall k | i < k < j ensures StepAt(b, k, step) {
          assert StepAt(Reversed(b), |b| - k, -step);
        }
      }
      if IsRun(b, i, j, step) {
        var r, lo, hi, down := Reversed(b), |b| - j, |b| - i, -step;
        forall m | lo < m < hi ensures StepAt(r, m, down) {
          assert StepAt(b, |b| - m, step);
        }
      }
    }
  }

  lemma LongestReversed(b: seq<byte>, step: int)
    ensures LongestRunOf(Reversed(b), -step) == LongestRunOf(b, step)
  {
    if b != [] {
      LongestIsGreatest(b, |b|, step);
      LongestIsGreatest(Reversed(b), |b|, -step);
      var i, j :| IsRun(b, i, j, step) && j <= |b| && j - i == LongestRunOf(b, step);
      RunReversed(b, i, j, step);
      var k, l :| IsRun(Reversed(b), k, l, -step) && l <= |b| && l - k == LongestRunOf(Reversed(b), -step);
      RunReversed(b, |b| - l, |b| - k, step);
    }
  }

  lemma ContainsAtReversed(s: seq<byte>, t: seq<byte>, i: nat)
    requires i + |t| <= |s|
    ensures ContainsAt(Reversed(s), Reversed(t), |s| - i - |t|) <==> ContainsAt(s, t, i)
  {
    var k := |s| - i - |t|;
    assert Reversed(s)[k..k + |t|] == Reversed(s[i..i + |t|]);
    ReversedInjective(s[i..i + |t|], t);
  }

  lemma ReversedInjective<T>(s: seq<T>, t: seq<T>)
    requires |s| == |t|
    ensures Reversed(s) == Reversed(t) <==> s == t
  {
    if Reversed(s) == Reversed(t) {
      forall i | 0 <= i < |s| ensures s[i] == t[i] {
        assert Reversed(s)[|s| - 1 - i] == Reversed(t)[|s| - 1 - i];
      }
    }
  }

  lemma ContainsReversed(s: seq<byte>, t: seq<byte>)
    ensures Contains(Reversed(s), Reversed(t)) <==> Contains(s, t)
  {
    if Contains(s, t) {
      var i: nat :| i <= |s| && ContainsAt(s, t, i);
      ContainsAtReversed(s, t, i);
    }
    if Contains(Reversed(s), Reversed(t)) {
      var k: nat :| k <= |s| && ContainsAt(Reversed(s), Reversed(t), k);
      ContainsAtReversed(s, t, |s| - k - |t|);
    }
  }

  lemma MirrorOf<T>(t: seq<T>) returns (u: seq<T>)
    ensures u == Reversed(t) && t == Reversed(u)
  {
    u := Reversed(t);
  }

  lemma TripleReversed(pass: seq<rune>)
    ensures HasTriple(Reversed(pass)) <==> HasTriple(pass)
  {
    if HasTriple(pass) {
      var i :| TripleAt(pass, i);
      assert TripleAt(Reversed(pass), |pass| - 3 - i);
    }
    if HasTriple(Reversed(pass)) {
      var i :| TripleAt(Reversed(pass), i);
      assert TripleAt(pass, |pass| - 3 - i);
    }
  }

  lemma ClassReversed(pass: seq<rune>, c: Class)
    ensures c in Classes(pass) <==> c in Classes(Reversed(pass))
  {
    if c in Classes(pass) {
      var i :| 0 <= i < |pass| && ClassOf(pass[i]) == c;
      assert ClassOf(Reversed(pass)[|pass| - 1 - i]) == c;
    }
    if c in Classes(Reversed(pass)) {
      var i :| 0 <= i < |pass| && ClassOf(Reversed(pass)[i]) == c;
      assert ClassOf(pass[|pass| - 1 - i]) == c;
    }
  }

  lemma ClassesReversed(pass: seq<rune>)
    ensures Classes(Reversed(pass)) == Classes(pass)
  {
    forall c ensures c in Classes(pass) <==> c in Classes(Reversed(pass)) {
      ClassReversed(pass, c);
    }
  }

  lemma CategoriesReversed(pass: seq<rune>)
    ensures Categories(Reversed(pass)) == Categories(pass)
  {
    TripleReversed(pass);
    ClassesReversed(pass);
  }

  lemma NamesUserReversed(b: seq<byte>, user: seq<byte>, p: Policy)
    ensures NamesUser(Reversed(b), user, p) <==> NamesUser(b, user, p)
  {
    var mono := Mono(b);
    assert Mono(Reversed(b)) == Reversed(mono);
    ContainsReversed(mono, user);
    assert Contains(Reversed(mono), user) <==> Contains(mono, Reversed(user)) by {
      var resu := MirrorOf(user);
      ContainsReversed(mono, resu);
    }
  }

  lemma PalindromeReversed(b: seq<byte>)
    ensures Mono(Reversed(b)) == Reversed(Mono(Reversed(b))) <==> Mono(b) == Reversed(Mono(b))
  {
    assert Mono(Reversed(b)) == Reversed(Mono(b));
    ReversedInjective(Mono(b), Reversed(Mono(b)));
  }

  lemma PatternErrorReversed(b: seq<byte>, user: seq<byte>, p: Policy)
    ensures PatternError(Reversed(b), user, p) == PatternError(b, user, p)
  {
    PalindromeReversed(b);
    LongestReversed(b, 0);
    LongestReversed(b, 1);
    LongestReversed(b, -1);
    NamesUserReversed(b, user, p);
  }

  lemma BytesErrorReversed(b: seq<byte>, runes: nat, user: seq<byte>, p: Policy)
    ensures BytesError(Reversed(b), runes, user, p) == BytesError(b, runes, user, p)
  {
    PatternErrorReversed(b, user, p);
    CreditReversed(b, p, ByteDigit);
    CreditReversed(b, p, ByteUpper);
    CreditReversed(b, p, ByteLower);
    CreditReversed(b, p, ByteOther);
    SameCreditSameError(Reversed(b), b, runes, user, p);
  }

  lemma CreditReversed(b: seq<byte>, p: Policy, c: ByteClass)
    ensures SameCredit(Reversed(b), b, p, c)
  {
    CountReversed(b, c);
  }

  /** One class counts alike in both. */
  predicate SameCredit(a: seq<byte>, b: seq<byte>, p: Policy, c: ByteClass) {
    (TooFew(a, p, c) <==> TooFew(b, p, c)) && Bonus(a, p, c) == Bonus(b, p, c)
  }

  lemma SameCreditSameError(a: seq<byte>, b: seq<byte>, runes: nat, user: seq<byte>, p: Policy)
    requires SameCredit(a, b, p, ByteDigit) && SameCredit(a, b, p, ByteUpper) && SameCredit(a, b, p, ByteLower) && SameCredit(a, b, p, ByteOther)
    requires PatternError(a, user, p) == PatternError(b, user, p)
    ensures BytesError(a, runes, user, p) == BytesError(b, runes, user, p)
  {
    assert CreditedSize(a, runes, p) == CreditedSize(b, runes, p);
  }

  /** An ASCII password and its reversal get the same verdict, with the same error. */
  lemma SameVerdictReversed(cfg: Config, pass: seq<rune>, user: seq<byte>, policy: Option<Policy>)
    requires Ascii(pass)
    ensures PasswordError(cfg, Reversed(pass), user, policy) == PasswordError(cfg, pass, user, policy)
  {
    CategoriesReversed(pass);
    if policy.Some? {
      ReversedBytes(pass);
      BytesErrorReversed(Bytes(pass), |pass|, user, policy.value);
    }
  }
}
