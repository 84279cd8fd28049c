/** The field rules the sign-up, sign-in, password and profile forms check
    before anything is sent. Each form declares the same rules (the same
    patterns and lengths), so they are stated once here. A field's rule gives
    the message of the first check that fails, in the order the form library
    applies them: required, minimum length, pattern, custom check. */
module FormRules {
  import opened Common
  import opened Text

  // ---------------------------------------------------------------------
  // Messages

  const NameRequiredMsg: string := "Nama lengkap wajib diisi"
  const NameShortMsg: string := "Nama terlalu pendek"
  const PhoneRequiredMsg: string := "Nomor HP wajib diisi"
  const PhoneFormatMsg: string := "Format nomor HP tidak valid"
  const EmailRequiredMsg: string := "Email wajib diisi"
  const EmailFormatMsg: string := "Email tidak valid"
  const PasswordRequiredMsg: string := "Password wajib diisi"
  const PasswordShortMsg: string := "Password minimal 8 karakter"
  const PasswordWeakMsg: string := "Password harus mengandung huruf besar, huruf kecil, dan angka"
  const ConfirmRequiredMsg: string := "Konfirmasi password wajib diisi"
  const ConfirmMismatchMsg: string := "Password tidak cocok"
  const RoleRequiredMsg: string := "Role wajib dipilih"

  const MinNameLength: nat := 3
  const MinPasswordLength: nat := 8

  // ---------------------------------------------------------------------
  // Email: /^[A-Z0-9._%+-]+@[A-Z0-9.-]+\.[A-Z]{2,}$/i

  predicate IsLocalChar(c: char) {
    IsAsciiLetter(c) || IsAsciiDigit(c) || c == '.' || c == '_' || c == '%' || c == '+' || c == '-'
  }

  predicate IsDomainChar(c: char) {
    IsAsciiLetter(c) || IsAsciiDigit(c) || c == '.' || c == '-'
  }

  predicate AllLocal(s: string) { forall k | 0 <= k < |s| :: IsLocalChar(s[k]) }
  predicate AllDomain(s: string) { forall k | 0 <= k < |s| :: IsDomainChar(s[k]) }

  /** The pattern read as a language: the `@` at `at` and the `.` at `dot`
      cut the address into a local part, a domain and a top-level part of at
      least two letters. */
  predicate EmailSplitAt(s: string, at: nat, dot: nat) {
    && 0 < at && at + 1 < dot && dot + 2 < |s|
    && AllLocal(s[..at]) && s[at] == '@'
    && AllDomain(s[at + 1..dot]) && s[dot] == '.'
    && AllLetters(s[dot + 1..])
  }

  ghost predicate EmailShape(s: string) {
    exists at: nat, dot: nat :: EmailSplitAt(s, at, dot)
  }

  /** The matcher: the only `@`, then the last `.` after it. */
  function MatchesEmail(s: string): (r: bool)
    ensures r <==> EmailShape(s)
  {
    match IndexOf(s, '@')
    case None =>
      assert !EmailShape(s) by {
        forall at: nat, dot: nat ensures !EmailSplitAt(s, at, dot) {
          if 0 < at < |s| { assert s[at] in s; }
        }
      }
      false
    case Some(at) =>
      var rest := s[at + 1..];
      match LastIndexOf(rest, '.')
      case None =>
        assert !EmailShape(s) by { EmailNeedsDot(s, at); }
        false
      case Some(d) =>
        var r := 0 < at && AllLocal(s[..at]) && 0 < d && AllDomain(rest[..d]) && d + 3 <= |rest|
                 && AllLetters(rest[d + 1..]);
        EmailMatcherSound(s, at, d);
        r
  }

  /** With the first `@` at `at` and no `.` after it there is no split. */
  lemma EmailNeedsDot(s: string, at: nat)
    requires at < |s| && s[at] == '@' && '@' !in s[..at] && '.' !in s[at + 1..]
    ensures !EmailShape(s)
  {
    forall a: nat, dot: nat | EmailSplitAt(s, a, dot) ensures false {
      AtIsFirst(s, at, a, dot);
    }
  }

  /** In a split the `@` is the first one in the string. */
  lemma AtIsFirst(s: string, at: nat, a: nat, dot: nat)
    requires at < |s| && s[at] == '@' && '@' !in s[..at]
    requires EmailSplitAt(s, a, dot)
    ensures a == at
  {
  }

  /** Given the first `@` and the last `.` after it, the matcher's test is
      the existence of a split. */
  lemma EmailMatcherSound(s: string, at: nat, d: nat)
    requires at < |s| && s[at] == '@' && '@' !in s[..at]
    requires d < |s[at + 1..]| && s[at + 1..][d] == '.' && '.' !in s[at + 1..][d + 1..]
    ensures (0 < at && AllLocal(s[..at]) && 0 < d && AllDomain(s[at + 1..][..d]) && d + 3 <= |s[at + 1..]|
             && AllLetters(s[at + 1..][d + 1..])) <==> EmailShape(s)
  {
    var rest := s[at + 1..];
    var dot := at + 1 + d;
    assert rest[..d] == s[at + 1..dot];
    assert rest[d + 1..] == s[dot + 1..];
    if EmailShape(s) {
      var a: nat, e: nat :| EmailSplitAt(s, a, e);
      AtIsFirst(s, at, a, e);
      assert EmailSplitAt(s, at, dot);
    } else {
      assert !EmailSplitAt(s, at, dot);
    }
  }

  // ---------------------------------------------------------------------
  // Phone: /^(\+62|62|0)[0-9]{8,15}$/

  const PhonePrefixes: seq<string> := ["+62", "62", "0"]

  /** The pattern read as a language: one of the prefixes, then 8 to 15
      digits and nothing else. */
  ghost predicate PhoneShape(s: string) {
    exists p | p in PhonePrefixes ::
      |p| <= |s| && s[..|p|] == p && 8 <= |s| - |p| <= 15 && AllDigits(s[|p|..])
  }

  /** What follows the prefix, when there is one. The prefixes start with
      three different characters, so at most one of them fits. */
  function PhoneDigits(s: string): (r: Option<string>)
    ensures r.Some? ==> exists p | p in PhonePrefixes :: |p| <= |s| && s[..|p|] == p && r.value == s[|p|..]
  {
    if |s| >= 3 && s[0] == '+' && s[1] == '6' && s[2] == '2' then
      assert s[..3] == PhonePrefixes[0];
      Some(s[3..])
    else if |s| >= 2 && s[0] == '6' && s[1] == '2' then
      assert s[..2] == PhonePrefixes[1];
      Some(s[2..])
    else if |s| >= 1 && s[0] == '0' then
      assert s[..1] == PhonePrefixes[2];
      Some(s[1..])
    else None
  }

  function MatchesPhone(s: string): (r: bool)
    ensures r <==> PhoneShape(s)
  {
    var digits := PhoneDigits(s);
    var r := digits.Some? && 8 <= |digits.value| <= 15 && AllDigits(digits.value);
    assert r <==> PhoneShape(s) by {
      if PhoneShape(s) {
        var p :| p in PhonePrefixes && |p| <= |s| && s[..|p|] == p && 8 <= |s| - |p| <= 15 && AllDigits(s[|p|..]);
        assert s[0] == p[0];
      }
    }
    r
  }

  // ---------------------------------------------------------------------
  // Password: at least 8 characters and /^(?=.*[a-z])(?=.*[A-Z])(?=.*\d)/

  predicate HasLower(s: string) { exists k | 0 <= k < |s| :: IsAsciiLower(s[k]) }
  predicate HasUpper(s: string) { exists k | 0 <= k < |s| :: IsAsciiUpper(s[k]) }
  predicate HasDigit(s: string) { exists k | 0 <= k < |s| :: IsAsciiDigit(s[k]) }

  predicate StrongPassword(p: string) {
    |p| >= MinPasswordLength && HasLower(p) && HasUpper(p) && HasDigit(p)
  }

  // ---------------------------------------------------------------------
  // Field rules: the message shown under the field, if any

  function NameError(name: string): (e: Option<string>)
    ensures e.None? <==> |name| >= MinNameLength
  {
    if name == "" then Some(NameRequiredMsg)
    else if |name| < MinNameLength then Some(NameShortMsg)
    else None
  }

  function PhoneError(phone: string): (e: Option<string>)
    ensures e.None? <==> PhoneShape(phone)
    ensures phone == "" ==> e == Some(PhoneRequiredMsg)
  {
    if phone == "" then Some(PhoneRequiredMsg)
    else if !MatchesPhone(phone) then Some(PhoneFormatMsg)
    else None
  }

  function EmailError(email: string): (e: Option<string>)
    ensures e.None? <==> EmailShape(email)
    ensures email == "" ==> e == Some(EmailRequiredMsg)
  {
    if email == "" then Some(EmailRequiredMsg)
    else if !MatchesEmail(email) then Some(EmailFormatMsg)
    else None
  }

  /** The strength rule of the sign-up and reset forms. */
  function NewPasswordError(password: string): (e: Option<string>)
    ensures e.None? <==> StrongPassword(password)
    ensures password != "" && |password| < MinPasswordLength ==> e == Some(PasswordShortMsg)
  {
    if password == "" then Some(PasswordRequiredMsg)
    else if |password| < MinPasswordLength then Some(PasswordShortMsg)
    else if !(HasLower(password) && HasUpper(password) && HasDigit(password)) then Some(PasswordWeakMsg)
    else None
  }

  /** The sign-in form only asks for a password. */
  function PasswordPresentError(password: string): (e: Option<string>)
    ensures e.None? <==> password != ""
  {
    if password == "" then Some(PasswordRequiredMsg) else None
  }

  function ConfirmError(confirm: string, password: string): (e: Option<string>)
    ensures e.None? <==> confirm != "" && confirm == password
  {
    if confirm == "" then Some(ConfirmRequiredMsg)
    else if confirm != password then Some(ConfirmMismatchMsg)
    else None
  }

  function RoleError(role: string): (e: Option<string>)
    ensures e.None? <==> role != ""
  {
    if role == "" then Some(RoleRequiredMsg) else None
  }

  /** Every well-formed phone number and email address is non-empty, so a
      field that passes its rule is also present. */
  lemma AcceptedFieldsPresent(phone: string, email: string)
    requires PhoneError(phone).None? && EmailError(email).None?
    ensures phone != "" && email != "" && |phone| >= 9 && |email| >= 6
  {
    var p :| p in PhonePrefixes && |p| <= |phone| && phone[..|p|] == p && 8 <= |phone| - |p| <= 15
             && AllDigits(phone[|p|..]);
    var at: nat, dot: nat :| EmailSplitAt(email, at, dot);
  }

  /** The shortest local number is accepted and one digit less is not. */
  lemma PhoneLengthEdge()
    ensures MatchesPhone("081234567") && !MatchesPhone("08123456")
  {
    assert PhoneDigits("081234567") == Some("81234567");
    assert PhoneDigits("08123456") == Some("8123456");
  }

  /** A separator after the country code is not a digit. */
  lemma PhoneSeparatorRejected()
    ensures !MatchesPhone("+62-81234567")
  {
    assert PhoneDigits("+62-81234567") == Some("-81234567");
    assert !IsAsciiDigit("-81234567"[0]);
  }

  /** Addresses at the edges of the rule. */
  lemma EmailExamples()
    ensures EmailShape("a@b.co") && !EmailShape("a@b.c") && !EmailShape("@b.co")
  {
    assert EmailSplitAt("a@b.co", 1, 3);
    assert !MatchesEmail("a@b.c") by {
      assert LastIndexOf("b.c", '.') == Some(1);
    }
  }

  lemma PasswordExamples()
    ensures StrongPassword("Passw0rd") && !StrongPassword("password1")
  {
    assert "Passw0rd"[1] == 'a' && "Passw0rd"[0] == 'P' && "Passw0rd"[5] == '0';
    assert !HasUpper("password1") by {
      forall k | 0 <= k < 9 ensures !IsAsciiUpper("password1"[k]) { }
    }
  }
}
