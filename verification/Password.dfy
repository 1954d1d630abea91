/** The password checks. A password is a sequence of Unicode scalar values; the
    libpwquality part works on its UTF-8 bytes, as signed characters. */
module Password {
  import opened Wrappers
  import opened Seqs

  type byte = x: int | 0 <= x < 256
  type rune = x: int | 0 <= x < 0x110000

  datatype Error =
    | MinLength(n: int) | PolicyNotMet
    | TooFewDigits | TooFewUpper | TooFewLower | TooFewSpecial
    | Palindrome | TooManyRepeats | Sequence | ContainsUsername

  datatype Policy = Policy(
    minLength: int, minClasses: int,
    maxRepeat: int, maxSequence: int, dictCheck: bool, userCheck: bool,
    digitCredit: int, upperCredit: int, lowerCredit: int, otherCredit: int)

  /** The configured minimums. */
  datatype Config = Config(minLength: int, minClasses: int)

  predicate UsesPwquality(p: Policy) {
    p.maxRepeat != 0 || p.maxSequence != 0 || p.dictCheck || p.userCheck ||
    p.digitCredit != 0 || p.upperCredit != 0 || p.lowerCredit != 0 || p.otherCredit != 0
  }

  function Max(a: int, b: int): int { if a < b then b else a }
  function Min(a: int, b: int): int { if a < b then a else b }

  // ---- Bytes ----

  function Utf8(r: rune): seq<byte> {
    if r < 0x80 then [r]
    else if r < 0x800 then [0xC0 + r / 0x40, 0x80 + r % 0x40]
    else if r < 0x10000 then [0xE0 + r / 0x1000, 0x80 + r / 0x40 % 0x40, 0x80 + r % 0x40]
    else [0xF0 + r / 0x40000, 0x80 + r / 0x1000 % 0x40, 0x80 + r / 0x40 % 0x40, 0x80 + r % 0x40]
  }

  function Bytes(pass: seq<rune>): seq<byte> {
    if pass == [] then [] else Bytes(pass[..|pass| - 1]) + Utf8(pass[|pass| - 1])
  }

  predicate Ascii(pass: seq<rune>) {
    forall i :: 0 <= i < |pass| ==> pass[i] < 0x80
  }

  lemma {:induction false} AsciiBytes(pass: seq<rune>)
    requires Ascii(pass)
    ensures |Bytes(pass)| == |pass| && forall i :: 0 <= i < |pass| ==> Bytes(pass)[i] == pass[i]
  {
    if pass != [] {
      AsciiBytes(pass[..|pass| - 1]);
    }
  }

  function Signed(b: byte): int { if b < 128 then b else b - 256 }

  function LowerByte(b: byte): byte { if 65 <= b <= 90 then b + 32 else b }

  function Mono(b: seq<byte>): (r: seq<byte>)
    ensures |r| == |b| && forall i :: 0 <= i < |b| ==> r[i] == LowerByte(b[i])
  {
    seq(|b|, i requires 0 <= i < |b| => LowerByte(b[i]))
  }

  predicate ContainsAt(s: seq<byte>, t: seq<byte>, i: nat) {
    i + |t| <= |s| && s[i..i + |t|] == t
  }

  predicate Contains(s: seq<byte>, t: seq<byte>) {
    exists i: nat :: i <= |s| && ContainsAt(s, t, i)
  }

  // ---- Runs ----

  predicate StepAt(b: seq<byte>, i: int, step: int) {
    0 < i < |b| && Signed(b[i]) - Signed(b[i - 1]) == step
  }

  /** Between any two neighbours in b[i..j] lies the same signed step. */
  ghost predicate IsRun(b: seq<byte>, i: int, j: int, step: int) {
    0 <= i < j <= |b| && forall k :: i < k < j ==> StepAt(b, k, step)
  }

  /** The length of the stretch that ends with b[i]. */
  function RunAt(b: seq<byte>, i: nat, step: int): nat
    requires i < |b|
  {
    if i > 0 && StepAt(b, i, step) then RunAt(b, i - 1, step) + 1 else 1
  }

  function Longest(b: seq<byte>, n: nat, step: int): nat
    requires n <= |b|
  {
    if n == 0 then 0 else Max(Longest(b, n - 1, step), RunAt(b, n - 1, step))
  }

  function LongestRunOf(b: seq<byte>, step: int): nat {
    Longest(b, |b|, step)
  }

  lemma {:induction false} RunAtIsRun(b: seq<byte>, i: nat, step: int)
    requires i < |b|
    ensures RunAt(b, i, step) <= i + 1 && IsRun(b, i + 1 - RunAt(b, i, step), i + 1, step)
    ensures forall k, j :: IsRun(b, k, j, step) && j == i + 1 ==> j - k <= RunAt(b, i, step)
  {
    if i > 0 && StepAt(b, i, step) {
      RunAtIsRun(b, i - 1, step);
      forall k, j | IsRun(b, k, j, step) && j == i + 1 ensures j - k <= RunAt(b, i, step) {
        if k < i {
          assert IsRun(b, k, i, step);
        }
      }
    } else {
      forall k, j | IsRun(b, k, j, step) && j == i + 1 ensures k == i {
        assert i > k ==> StepAt(b, i, step);
      }
    }
  }

  lemma {:induction false} LongestIsGreatest(b: seq<byte>, n: nat, step: int)
    requires n <= |b|
    ensures n > 0 ==> exists i, j :: IsRun(b, i, j, step) && j <= n && j - i == Longest(b, n, step)
    ensures forall i, j :: IsRun(b, i, j, step) && j <= n ==> j - i <= Longest(b, n, step)
  {
    if n > 0 {
      LongestIsGreatest(b, n - 1, step);
      RunAtIsRun(b, n - 1, step);
      if Longest(b, n - 1, step) > RunAt(b, n - 1, step) {
        var i, j :| IsRun(b, i, j, step) && j <= n - 1 && j - i == Longest(b, n - 1, step);
        assert IsRun(b, i, j, step) && j <= n && j - i == Longest(b, n, step);
      } else {
        assert IsRun(b, n - RunAt(b, n - 1, step), n, step);
      }
    }
  }

  /** longestRun is the greatest length of a stretch with that step, so a limit is
      exceeded exactly when a window one longer than the limit exists. */
  lemma LimitExceededIff(b: seq<byte>, step: int, limit: nat)
    ensures LongestRunOf(b, step) > limit <==> exists i, j :: IsRun(b, i, j, step) && j - i == limit + 1
  {
    LongestIsGreatest(b, |b|, step);
    if LongestRunOf(b, step) > limit {
      var i, j :| IsRun(b, i, j, step) && j - i == LongestRunOf(b, step);
      assert IsRun(b, i, i + limit + 1, step);
    }
  }

  method LongestRun(b: seq<byte>, step: int) returns (longest: nat)
    ensures longest == LongestRunOf(b, step)
  {
    var run;
    longest, run := Min(|b|, 1), 1;
    if |b| == 0 {
      return;
    }
    var i := 1;
    while i < |b|
      invariant 1 <= i <= |b|
      invariant run == RunAt(b, i - 1, step) && longest == Longest(b, i, step)
    {
      if Signed(b[i]) - Signed(b[i - 1]) == step {
        run := run + 1;
      } else {
        run := 1;
      }
      longest := Max(longest, run);
      i := i + 1;
    }
  }

  // ---- Character classes ----

  datatype Class = Digit | Upper | Lower | Special | EightBit

  function ClassOf(r: rune): Class {
    if 48 <= r <= 57 then Digit
    else if 97 <= r <= 122 then Lower
    else if 65 <= r <= 90 then Upper
    else if r < 128 then Special
    else EightBit
  }

  function Classes(pass: seq<rune>): set<Class> {
    set i | 0 <= i < |pass| :: ClassOf(pass[i])
  }

  ghost predicate TripleAt(pass: seq<rune>, i: int) {
    0 <= i < |pass| - 2 && pass[i] == pass[i + 1] == pass[i + 2]
  }

  /** Some character occurs three or more times in a row. */
  ghost predicate HasTriple(pass: seq<rune>) {
    exists i :: TripleAt(pass, i)
  }

  /** FreeIPA's count: the classes in use, less one for a character repeated
      three or more times in a row. */
  ghost function Categories(pass: seq<rune>): int {
    |Classes(pass)| - if HasTriple(pass) then 1 else 0
  }

  function One(b: bool): nat { if b then 1 else 0 }

  lemma CountClasses(s: set<Class>)
    ensures |s| == One(Digit in s) + One(Upper in s) + One(Lower in s) + One(Special in s) + One(EightBit in s)
  {
    var rest := RemoveClass(s, Digit);
    rest := RemoveClass(rest, Upper);
    rest := RemoveClass(rest, Lower);
    CountTwo(rest);
  }

  lemma CountTwo(s: set<Class>)
    requires Digit !in s && Upper !in s && Lower !in s
    ensures |s| == One(Special in s) + One(EightBit in s)
  {
    var rest := RemoveClass(s, Special);
    rest := RemoveClass(rest, EightBit);
    forall c ensures c !in rest {
      match c { case Digit => case Upper => case Lower => case Special => case EightBit => }
    }
    assert rest == {};
  }

  lemma RemoveClass(s: set<Class>, c: Class) returns (r: set<Class>)
    ensures r == s - {c} && |s| == |r| + One(c in s)
  {
    r := s - {c};
    if c in s {
      assert s == r + {c};
    } else {
      assert s == r;
    }
  }

  method CountCategories(pass: seq<rune>) returns (n: int)
    ensures n == Categories(pass)
  {
    var hasDigit, hasUpper, hasLower, hasSpecial, has8bit := false, false, false, false, false;
    var numRepeated, maxRepeated := 0, 0;
    for i := 0 to |pass|
      invariant hasDigit <==> Digit in Classes(pass[..i])
      invariant hasUpper <==> Upper in Classes(pass[..i])
      invariant hasLower <==> Lower in Classes(pass[..i])
      invariant hasSpecial <==> Special in Classes(pass[..i])
      invariant has8bit <==> EightBit in Classes(pass[..i])
      invariant 0 <= numRepeated
      invariant numRepeated >= 1 <==> i >= 2 && pass[i - 1] == pass[i - 2]
      invariant numRepeated >= 2 <==> i >= 3 && pass[i - 1] == pass[i - 2] == pass[i - 3]
      invariant maxRepeated > 1 <==> HasTriple(pass[..i])
    {
      ClassesStep(pass, i);
      TripleStep(pass, i);
      match ClassOf(pass[i]) {
        case Digit => hasDigit := true;
        case Lower => hasLower := true;
        case Upper => hasUpper := true;
        case Special => hasSpecial := true;
        case EightBit => has8bit := true;
      }
      if i > 0 && pass[i - 1] == pass[i] {
        numRepeated := numRepeated + 1;
        if numRepeated > maxRepeated {
          maxRepeated := numRepeated;
        }
      } else {
        numRepeated := 0;
      }
    }
    assert pass[..|pass|] == pass;
    CountClasses(Classes(pass));
    n := One(hasDigit) + One(hasUpper) + One(hasLower) + One(hasSpecial) + One(has8bit);
    if maxRepeated > 1 {
      n := n - 1;
    }
  }

  lemma ClassesStep(pass: seq<rune>, i: nat)
    requires i < |pass|
    ensures Classes(pass[..i + 1]) == Classes(pass[..i]) + {ClassOf(pass[i])}
  {
    forall c | c in Classes(pass[..i]) + {ClassOf(pass[i])} ensures c in Classes(pass[..i + 1]) {
      if c in Classes(pass[..i]) {
        var j :| 0 <= j < i && ClassOf(pass[..i][j]) == c;
        assert pass[..i + 1][j] == pass[j];
      } else {
        assert pass[..i + 1][i] == pass[i];
      }
    }
    forall c | c in Classes(pass[..i + 1]) ensures c in Classes(pass[..i]) + {ClassOf(pass[i])} {
      var j :| 0 <= j < i + 1 && ClassOf(pass[..i + 1][j]) == c;
      if j < i {
        assert pass[..i][j] == pass[j];
      }
    }
  }

  lemma TripleStep(pass: seq<rune>, i: nat)
    requires i < |pass|
    ensures HasTriple(pass[..i + 1]) <==> HasTriple(pass[..i]) || (i >= 2 && pass[i] == pass[i - 1] == pass[i - 2])
  {
    if HasTriple(pass[..i]) {
      var j :| TripleAt(pass[..i], j);
      assert TripleAt(pass[..i + 1], j);
    }
    if i >= 2 && pass[i] == pass[i - 1] == pass[i - 2] {
      assert TripleAt(pass[..i + 1], i - 2);
    }
    if HasTriple(pass[..i + 1]) {
      var j :| TripleAt(pass[..i + 1], j);
      if j + 2 < i {
        assert TripleAt(pass[..i], j);
      }
    }
  }

  // ---- libpwquality ----

  datatype ByteClass = ByteDigit | ByteUpper | ByteLower | ByteOther

  function ByteClassOf(b: byte): ByteClass {
    if 48 <= b <= 57 then ByteDigit
    else if 65 <= b <= 90 then ByteUpper
    else if 97 <= b <= 122 then ByteLower
    else ByteOther
  }

  function Count(b: seq<byte>, c: ByteClass): nat {
    if b == [] then 0 else Count(b[..|b| - 1], c) + if ByteClassOf(b[|b| - 1]) == c then 1 else 0
  }

  function Credit(p: Policy, c: ByteClass): int {
    match c
    case ByteDigit => p.digitCredit
    case ByteUpper => p.upperCredit
    case ByteLower => p.lowerCredit
    case ByteOther => p.otherCredit
  }

  /** A negative credit -N asks for at least N characters of the class. */
  predicate TooFew(b: seq<byte>, p: Policy, c: ByteClass) {
    Count(b, c) < -Credit(p, c)
  }

  /** A positive credit lets up to N characters of the class count twice. */
  function Bonus(b: seq<byte>, p: Policy, c: ByteClass): int {
    if Credit(p, c) > 0 then Min(Count(b, c), Credit(p, c)) else 0
  }

  function CreditedSize(b: seq<byte>, runes: nat, p: Policy): int {
    runes + Bonus(b, p, ByteDigit) + Bonus(b, p, ByteUpper) + Bonus(b, p, ByteLower) + Bonus(b, p, ByteOther)
  }

  predicate TooRepetitive(b: seq<byte>, p: Policy) {
    p.maxRepeat > 0 && LongestRunOf(b, 0) > p.maxRepeat
  }

  predicate TooSequential(b: seq<byte>, p: Policy) {
    p.maxSequence > 0 && Max(LongestRunOf(b, 1), LongestRunOf(b, -1)) > p.maxSequence
  }

  predicate NamesUser(b: seq<byte>, user: seq<byte>, p: Policy) {
    p.userCheck && |user| >= 4 && (Contains(Mono(b), user) || Contains(Mono(b), Reversed(user)))
  }

  /** The verdict of checkPwquality; `user` is the lower-cased user name. */
  function PwqualityError(pass: seq<rune>, user: seq<byte>, p: Policy): Option<Error> {
    BytesError(Bytes(pass), |pass|, user, p)
  }

  /** The same on the bytes; the length is counted in characters. */
  function BytesError(b: seq<byte>, runes: nat, user: seq<byte>, p: Policy): Option<Error> {
    if TooFew(b, p, ByteDigit) then Some(TooFewDigits)
    else if TooFew(b, p, ByteUpper) then Some(TooFewUpper)
    else if TooFew(b, p, ByteLower) then Some(TooFewLower)
    else if TooFew(b, p, ByteOther) then Some(TooFewSpecial)
    else if CreditedSize(b, runes, p) < Max(p.minLength, 6) then Some(MinLength(Max(p.minLength, 6)))
    else PatternError(b, user, p)
  }

  function PatternError(b: seq<byte>, user: seq<byte>, p: Policy): Option<Error> {
    if Mono(b) == Reversed(Mono(b)) then Some(Palindrome)
    else if TooRepetitive(b, p) then Some(TooManyRepeats)
    else if TooSequential(b, p) then Some(Sequence)
    else if NamesUser(b, user, p) then Some(ContainsUsername)
    else None
  }

  function EffectiveLength(cfg: Config, policy: Option<Policy>): int {
    if policy.Some? && !UsesPwquality(policy.value) && policy.value.minLength > cfg.minLength then policy.value.minLength
    else cfg.minLength
  }

  function EffectiveClasses(cfg: Config, policy: Option<Policy>): int {
    if policy.Some? && policy.value.minClasses > cfg.minClasses then policy.value.minClasses else cfg.minClasses
  }

  /** The verdict of checkPassword; no policy means that its lookup failed. */
  ghost function PasswordError(cfg: Config, pass: seq<rune>, user: seq<byte>, policy: Option<Policy>): Option<Error> {
    if |pass| < EffectiveLength(cfg, policy) then Some(MinLength(EffectiveLength(cfg, policy)))
    else if Categories(pass) < EffectiveClasses(cfg, policy) then Some(PolicyNotMet)
    else if policy.Some? && UsesPwquality(policy.value) then PwqualityError(pass, user, policy.value)
    else None
  }

  method CheckPassword(cfg: Config, pass: seq<rune>, user: seq<byte>, policy: Option<Policy>) returns (r: Option<Error>)
    ensures r == PasswordError(cfg, pass, user, policy)
  {
    var minLength, minClasses := cfg.minLength, cfg.minClasses;
    var pwquality := policy.Some? && UsesPwquality(policy.value);
    if policy.Some? {
      if !pwquality && policy.value.minLength > minLength {
        minLength := policy.value.minLength;
      }
      if policy.value.minClasses > minClasses {
        minClasses := policy.value.minClasses;
      }
    }
    if |pass| < minLength {
      return Some(MinLength(minLength));
    }
    var numCategories := CountCategories(pass);
    if numCategories < minClasses {
      return Some(PolicyNotMet);
    }
    if pwquality {
      r := CheckPwquality(pass, user, policy.value);
      return;
    }
    r := None;
  }

  method CheckPwquality(pass: seq<rune>, user: seq<byte>, p: Policy) returns (r: Option<Error>)
    ensures r == PwqualityError(pass, user, p)
  {
    var b := Bytes(pass);
    var digits, uppers, lowers, others := CountBytes(b);
    var size := |pass|;
    if digits < -p.digitCredit { return Some(TooFewDigits); }
    if p.digitCredit > 0 { size := size + Min(digits, p.digitCredit); }
    if uppers < -p.upperCredit { return Some(TooFewUpper); }
    if p.upperCredit > 0 { size := size + Min(uppers, p.upperCredit); }
    if lowers < -p.lowerCredit { return Some(TooFewLower); }
    if p.lowerCredit > 0 { size := size + Min(lowers, p.lowerCredit); }
    if others < -p.otherCredit { return Some(TooFewSpecial); }
    if p.otherCredit > 0 { size := size + Min(others, p.otherCredit); }
    if size < Max(p.minLength, 6) {
      return Some(MinLength(Max(p.minLength, 6)));
    }
    r := CheckPatterns(b, user, p);
  }

  method CheckPatterns(b: seq<byte>, user: seq<byte>, p: Policy) returns (r: Option<Error>)
    ensures r == PatternError(b, user, p)
  {
    var mono := LowerBytes(b);
    var buffer := ToArray(mono);
    ReverseInPlace(buffer);
    if mono == buffer[..] {
      return Some(Palindrome);
    }
    if p.maxRepeat > 0 {
      var repeats := LongestRun(b, 0);
      if repeats > p.maxRepeat { return Some(TooManyRepeats); }
    }
    if p.maxSequence > 0 {
      var up := LongestRun(b, 1);
      var down := LongestRun(b, -1);
      if Max(up, down) > p.maxSequence { return Some(Sequence); }
    }
    if p.userCheck && |user| >= 4 {
      var resu := ToArray(user);
      ReverseInPlace(resu);
      if Contains(mono, user) || Contains(mono, resu[..]) { return Some(ContainsUsername); }
    }
    r := None;
  }

  method LowerBytes(b: seq<byte>) returns (mono: seq<byte>)
    ensures mono == Mono(b)
  {
    var a := ToArray(b);
    for i := 0 to a.Length
      invariant forall j :: 0 <= j < i ==> a[j] == LowerByte(b[j])
      invariant forall j :: i <= j < a.Length ==> a[j] == b[j]
    {
      if 65 <= a[i] <= 90 {
        a[i] := a[i] + 32;
      }
    }
    mono := a[..];
  }

  method CountBytes(b: seq<byte>) returns (digits: nat, uppers: nat, lowers: nat, others: nat)
    ensures digits == Count(b, ByteDigit) && uppers == Count(b, ByteUpper) && lowers == Count(b, ByteLower) && others == Count(b, ByteOther)
  {
    digits, uppers, lowers, others := 0, 0, 0, 0;
    for i := 0 to |b|
      invariant digits == Count(b[..i], ByteDigit) && uppers == Count(b[..i], ByteUpper)
      invariant lowers == Count(b[..i], ByteLower) && others == Count(b[..i], ByteOther)
    {
      assert b[..i + 1][..i] == b[..i];
      match ByteClassOf(b[i]) {
        case ByteDigit => digits := digits + 1;
        case ByteUpper => uppers := uppers + 1;
        case ByteLower => lowers := lowers + 1;
        case ByteOther => others := others + 1;
      }
    }
    assert b[..|b|] == b;
  }
}
