/** The storage key namespace. All components share one flat store, so their keys
    must not collide although user names, group names and tokens are free text. */
module Keys {

  datatype Kind = AccountVerify | PasswordReset | EmailChange | Invite | OTPRecovery

  datatype Key =
    | Issued(kind: Kind, name: string)
    | Used(kind: Kind, token: string)
    | PasswordChanged(user: string)
    | UserSessions(user: string)
    | GroupRequests(group: string)
    | RecoveryQueue
    | AuditSeq
    | AuditEntry(slot: nat)
    | Lock(key: string)
    | Reminder(user: string, expiry: nat, days: nat)

  function Tag(k: Key): string {
    match k
    case Issued(AccountVerify, _) => "verifyissued-"
    case Issued(PasswordReset, _) => "resetissued-"
    case Issued(EmailChange, _) => "emailchangeissued-"
    case Issued(Invite, _) => "inviteissued-"
    case Issued(OTPRecovery, _) => "otprecoveryissued-"
    case Used(AccountVerify, _) => "verifyused-"
    case Used(PasswordReset, _) => "resetused-"
    case Used(EmailChange, _) => "emailchangeused-"
    case Used(Invite, _) => "inviteused-"
    case Used(OTPRecovery, _) => "otprecoveryused-"
    case PasswordChanged(_) => "pwchanged-"
    case UserSessions(_) => "usersessions-"
    case GroupRequests(_) => "grouprequests-"
    case RecoveryQueue => "otprecovery"
    case AuditSeq => "audit-seq"
    case AuditEntry(_) => "audit-entry-"
    case Lock(_) => "lock-"
    case Reminder(_, _, _) => "expiry-reminder-"
  }

  function Body(k: Key): string {
    match k
    case Issued(_, name) => name
    case Used(_, token) => token
    case PasswordChanged(user) => user
    case UserSessions(user) => user
    case GroupRequests(group) => group
    case RecoveryQueue => ""
    case AuditSeq => ""
    case AuditEntry(slot) => Decimal(slot)
    case Lock(key) => key
    case Reminder(user, expiry, days) => ReminderText(user, expiry, days)
  }

  function Render(k: Key): string {
    Tag(k) + Body(k)
  }

  // ---- Decimal numbers ----

  predicate IsDigit(c: char) { '0' <= c <= '9' }

  function Digit(d: nat): char
    requires d < 10
  {
    '0' + d as char
  }

  function Decimal(n: nat): (s: string)
    ensures s != [] && forall i :: 0 <= i < |s| ==> IsDigit(s[i])
  {
    if n < 10 then [Digit(n)] else Decimal(n / 10) + [Digit(n % 10)]
  }

  lemma DigitInjective(a: nat, b: nat)
    requires a < 10 && b < 10 && Digit(a) == Digit(b)
    ensures a == b
  {
  }

  lemma {:induction false} DecimalInjective(m: nat, n: nat)
    requires Decimal(m) == Decimal(n)
    ensures m == n
  {
    var s, t := Decimal(m), Decimal(n);
    assert s[|s| - 1] == t[|t| - 1];
    if m < 10 && n < 10 {
      DigitInjective(m, n);
    } else if m >= 10 && n >= 10 {
      DigitInjective(m % 10, n % 10);
      assert Decimal(m / 10) == s[..|s| - 1] && Decimal(n / 10) == t[..|t| - 1];
      DecimalInjective(m / 10, n / 10);
    }
  }

  /** The text after the last dash can be read back whatever precedes it. */
  lemma LastDash(a: string, x: string, b: string, y: string)
    requires a + "-" + x == b + "-" + y
    requires (forall i :: 0 <= i < |x| ==> IsDigit(x[i])) && (forall i :: 0 <= i < |y| ==> IsDigit(y[i]))
    ensures a == b && x == y
  {
    var s, t := a + "-" + x, b + "-" + y;
    assert s[|a|] == '-' && t[|b|] == '-';
    assert |a| == |b|;
    assert a == s[..|a|] && b == t[..|b|] && x == s[|a| + 1..] && y == t[|b| + 1..];
  }

  // ---- Telling the keys apart ----

  /** Which component a stored key belongs to, read off its first characters. */
  function Classify(s: string): int {
    if |s| < 9 && !(|s| >= 5 && s[0] == 'l') then -1
    else match s[0]
      case 'v' => if s[6] == 'i' then 0 else 1
      case 'r' => if s[5] == 'i' then 2 else 3
      case 'e' => if s[1] == 'x' then 4 else if |s| > 11 && s[11] == 'i' then 5 else 6
      case 'i' => if s[6] == 'i' then 7 else 8
      case 'o' => if |s| <= 11 then 9 else if s[11] == 'i' then 10 else 11
      case 'p' => 12
      case 'u' => 13
      case 'g' => 14
      case 'a' => if s[6] == 's' then 15 else 16
      case 'l' => 17
      case _ => -1
  }

  function Class(k: Key): int {
    match k
    case Issued(AccountVerify, _) => 0
    case Used(AccountVerify, _) => 1
    case Issued(PasswordReset, _) => 2
    case Used(PasswordReset, _) => 3
    case Reminder(_, _, _) => 4
    case Issued(EmailChange, _) => 5
    case Used(EmailChange, _) => 6
    case Issued(Invite, _) => 7
    case Used(Invite, _) => 8
    case RecoveryQueue => 9
    case Issued(OTPRecovery, _) => 10
    case Used(OTPRecovery, _) => 11
    case PasswordChanged(_) => 12
    case UserSessions(_) => 13
    case GroupRequests(_) => 14
    case AuditSeq => 15
    case AuditEntry(_) => 16
    case Lock(_) => 17
  }

  /** The class shows in the tag alone, whatever text follows. */
  lemma ClassifyTag(k: Key, rest: string)
    requires !k.RecoveryQueue?
    ensures Classify(Tag(k) + rest) == Class(k)
  {
  }

  lemma ClassifyRendered(k: Key)
    ensures Classify(Render(k)) == Class(k)
  {
    if k.RecoveryQueue? {
      assert Render(k) == "otprecovery";
    } else {
      ClassifyTag(k, Body(k));
    }
  }

  lemma ClassFixesTag(k: Key, l: Key)
    requires Class(k) == Class(l)
    ensures Tag(k) == Tag(l)
    ensures Body(k) == Body(l) && !k.AuditEntry? && !k.Reminder? ==> k == l
    ensures (k.AuditEntry? <==> l.AuditEntry?) && (k.Reminder? <==> l.Reminder?)
  {
  }

  lemma ConcatCancels(t: string, a: string, b: string)
    requires t + a == t + b
    ensures a == b
  {
    assert a == (t + a)[|t|..] && b == (t + b)[|t|..];
  }

  lemma ReminderBodyInjective(k: Key, l: Key)
    requires k.Reminder? && l.Reminder? && Body(k) == Body(l)
    ensures k == l
  {
    SignedRemindersCollideIff(k.user, k.expiry, k.days, l.user, l.expiry, l.days);
  }

  /** No two keys collide: not across components, kinds and roles, and not within
      one, even for user names with dashes and digits in reminder markers. */
  lemma RenderInjective(k: Key, l: Key)
    requires Render(k) == Render(l)
    ensures k == l
  {
    ClassifyRendered(k);
    ClassifyRendered(l);
    ClassFixesTag(k, l);
    ConcatCancels(Tag(k), Body(k), Body(l));
    if k.AuditEntry? {
      DecimalInjective(k.slot, l.slot);
    } else if k.Reminder? {
      ReminderBodyInjective(k, l);
    }
  }

  // ---- Reminder keys with signed dates ----

  function Signed(n: int): string {
    if n < 0 then "-" + Decimal(-n) else Decimal(n)
  }

  function ReminderText(user: string, expiry: int, days: nat): string {
    user + "-" + Signed(expiry) + "-" + Decimal(days)
  }

  /** Two dates that print alike up to the sign, under names that differ by a dash. */
  predicate SignMoves(user: string, expiry: int, user': string, expiry': int) {
    expiry < 0 && expiry' == -expiry && user' == user + "-"
  }

  lemma SignedTextsMeet(u: string, x: int, v: string, y: int)
    requires x < 0 <= y && u + "-" + Signed(x) == v + "-" + Signed(y)
    ensures SignMoves(u, x, v, y)
  {
    assert u + "-" + Signed(x) == (u + "-") + "-" + Decimal(-x);
    LastDash(u + "-", Decimal(-x), v, Decimal(y));
    DecimalInjective(-x, y);
  }

  lemma NegativeTextsMeet(u: string, x: int, v: string, y: int)
    requires x < 0 && y < 0 && u + "-" + Signed(x) == v + "-" + Signed(y)
    ensures u == v && x == y
  {
    assert u + "-" + Signed(x) == (u + "-") + "-" + Decimal(-x) && v + "-" + Signed(y) == (v + "-") + "-" + Decimal(-y);
    LastDash(u + "-", Decimal(-x), v + "-", Decimal(-y));
    DecimalInjective(-x, -y);
    assert u == (u + "-")[..|u|] && v == (v + "-")[..|v|];
  }

  lemma SignMovesCollides(u: string, x: int, v: string, y: int, d: nat)
    requires SignMoves(u, x, v, y)
    ensures ReminderText(u, x, d) == ReminderText(v, y, d)
  {
    assert u + "-" + Signed(x) == v + "-" + Signed(y);
  }

  /** If dates before 1970 occurred, reminder markers would collide exactly where the
      sign of a date moves into a user name; so from 1970 on they never do. */
  lemma SignedRemindersCollideIff(u: string, x: int, d: nat, v: string, y: int, e: nat)
    ensures ReminderText(u, x, d) == ReminderText(v, y, e) <==>
      d == e && ((u == v && x == y) || SignMoves(u, x, v, y) || SignMoves(v, y, u, x))
  {
    if ReminderText(u, x, d) == ReminderText(v, y, e) {
      LastDash(u + "-" + Signed(x), Decimal(d), v + "-" + Signed(y), Decimal(e));
      DecimalInjective(d, e);
      if x < 0 && y < 0 {
        NegativeTextsMeet(u, x, v, y);
      } else if x < 0 {
        SignedTextsMeet(u, x, v, y);
      } else if y < 0 {
        SignedTextsMeet(v, y, u, x);
      } else {
        LastDash(u, Decimal(x), v, Decimal(y));
        DecimalInjective(x, y);
      }
    } else if d == e && SignMoves(u, x, v, y) {
      SignMovesCollides(u, x, v, y, d);
    } else if d == e && SignMoves(v, y, u, x) {
      SignMovesCollides(v, y, u, x, d);
    }
  }

  // ---- Keys without a tag ----

  /** The alphabet of network addresses and of session ids in hexadecimal groups. */
  predicate Bare(s: string) {
    forall i :: 0 <= i < |s| ==> IsDigit(s[i]) || 'a' <= s[i] <= 'f' || s[i] == '-' || s[i] == '.' || s[i] == ':'
  }

  /** Session data and the rate limiter use ids and addresses as keys as they are.
      They meet no key of the components above. */
  lemma BareKeysApart(s: string, k: Key)
    requires Bare(s)
    ensures s != Render(k)
  {
    var i := LetterOf(k);
    assert Render(k)[i] == Tag(k)[i];
  }

  /** A letter in every tag that no bare key contains. */
  lemma LetterOf(k: Key) returns (i: nat)
    ensures i < |Tag(k)| && 'g' <= Tag(k)[i] <= 'z'
  {
    i := if k.Issued? || k.Used? then (match k.kind case AccountVerify => 0 case PasswordReset => 0 case EmailChange => 1 case Invite => 0 case OTPRecovery => 0)
         else if k.AuditSeq? || k.AuditEntry? || k.Reminder? then 1 else 0;
  }
}
