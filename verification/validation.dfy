/**
 * The sign-up and profile form validators. Each returns None when the field
 * is acceptable and otherwise the first message that applies. Lengths are
 * JavaScript lengths (UTF-16 code units).
 */
module Validation {
  import opened Wrappers
  import opened Text

  const EmailRequired: string := "Email is required"
  const EmailInvalid: string := "Please enter a valid email address"
  const PasswordRequired: string := "Password is required"
  const PasswordTooShort: string := "Password must be at least 8 characters long"
  const UsernameRequired: string := "Username is required"
  const UsernameTooShort: string := "Username must be at least 3 characters long"
  const UsernameTooLong: string := "Username must be less than 20 characters long"
  const UsernameCharset: string := "Username can only contain letters, numbers, and underscores"
  const ConfirmRequired: string := "Please confirm your password"
  const ConfirmMismatch: string := "Passwords do not match"
  const DisplayNameTooShort: string := "Display name must be at least 2 characters long"
  const DisplayNameTooLong: string := "Display name must be less than 30 characters long"

  // ---------------------------------------------------------------------------
  // Email

  /** The characters JavaScript's `\s` class matches. */
  predicate IsJsSpace(c: char) {
    || c == '\t' || c == '\n' || c == '\U{000B}' || c == '\U{000C}' || c == '\r' || c == ' '
    || c == '\U{00A0}' || c == '\U{1680}' || ('\U{2000}' <= c <= '\U{200A}')
    || c == '\U{2028}' || c == '\U{2029}' || c == '\U{202F}' || c == '\U{205F}'
    || c == '\U{3000}' || c == '\U{FEFF}'
  }

  /** A character of the class `[^\s@]`. */
  predicate IsAddressChar(c: char) {
    !IsJsSpace(c) && c != '@'
  }

  predicate AllAddressChars(s: string) {
    forall i :: 0 <= i < |s| ==> IsAddressChar(s[i])
  }

  /**
   * The regular expression `^[^\s@]+@[^\s@]+\.[^\s@]+$` read literally: the
   * whole string is three non-empty runs of `[^\s@]` separated by an '@' and
   * then a '.'.
   */
  predicate MatchesEmailPattern(s: string) {
    exists at, dot ::
      && 0 < at && at + 1 < dot && dot + 1 < |s|
      && s[at] == '@' && s[dot] == '.'
      && AllAddressChars(s[..at]) && AllAddressChars(s[at + 1..dot]) && AllAddressChars(s[dot + 1..])
  }

  /**
   * What any accepted address looks like: at least five characters, an '@'
   * that is neither first nor last, and no whitespace anywhere.
   */
  lemma PatternShape(s: string)
    requires MatchesEmailPattern(s)
    ensures |s| >= 5 && '@' in s && s[0] != '@' && s[|s| - 1] != '@'
    ensures forall i :: 0 <= i < |s| ==> !IsJsSpace(s[i])
  {
    var at, dot :| && 0 < at && at + 1 < dot && dot + 1 < |s|
                   && s[at] == '@' && s[dot] == '.'
                   && AllAddressChars(s[..at]) && AllAddressChars(s[at + 1..dot]) && AllAddressChars(s[dot + 1..]);
    assert IsAddressChar(s[..at][0]);
    assert IsAddressChar(s[dot + 1..][|s| - dot - 2]);
    forall i | 0 <= i < |s| ensures !IsJsSpace(s[i]) {
      if i < at {
        assert IsAddressChar(s[..at][i]);
      } else if at < i < dot {
        assert IsAddressChar(s[at + 1..dot][i - at - 1]);
      } else if dot < i {
        assert IsAddressChar(s[dot + 1..][i - dot - 1]);
      }
    }
  }

  /**
   * The same test done the direct way: a non-empty local part up to the
   * first '@', and after it a host with no '@' or space that has a '.'
   * somewhere other than at its ends.
   */
  predicate EmailShaped(s: string) {
    match FirstIndexOf(s, '@')
    case None => false
    case Some(at) =>
      && 0 < at && at + 3 < |s|
      && AllAddressChars(s[..at]) && AllAddressChars(s[at + 1..])
      && '.' in s[at + 2..|s| - 1]
  }

  lemma EmailShapedIffPattern(s: string)
    ensures EmailShaped(s) <==> MatchesEmailPattern(s)
  {
    if MatchesEmailPattern(s) {
      PatternIsShaped(s);
    }
    if EmailShaped(s) {
      ShapedIsPattern(s);
    }
  }

  lemma PatternIsShaped(s: string)
    requires MatchesEmailPattern(s)
    ensures EmailShaped(s)
  {
    var at, dot :| && 0 < at && at + 1 < dot && dot + 1 < |s|
                   && s[at] == '@' && s[dot] == '.'
                   && AllAddressChars(s[..at]) && AllAddressChars(s[at + 1..dot]) && AllAddressChars(s[dot + 1..]);
    FirstAtAfterAddress(s, at);
    HostAddressChars(s, at, dot);
    assert s[at + 2..|s| - 1][dot - at - 2] == '.';
  }

  /** An '@' preceded only by address characters is the first '@'. */
  lemma FirstAtAfterAddress(s: string, at: nat)
    requires at < |s| && s[at] == '@' && AllAddressChars(s[..at])
    ensures FirstIndexOf(s, '@') == Some(at)
  {
    var local := s[..at];
    assert '@' !in local by {
      forall i | 0 <= i < at ensures local[i] != '@' { assert IsAddressChar(local[i]); }
    }
  }

  /** Two address runs joined by a '.' make one address run. */
  lemma HostAddressChars(s: string, at: nat, dot: nat)
    requires at < dot < |s| && s[dot] == '.'
    requires AllAddressChars(s[at + 1..dot]) && AllAddressChars(s[dot + 1..])
    ensures AllAddressChars(s[at + 1..])
  {
    var host, user, tld := s[at + 1..], s[at + 1..dot], s[dot + 1..];
    forall i | 0 <= i < |host| ensures IsAddressChar(host[i]) {
      if at + 1 + i < dot { assert host[i] == user[i]; }
      else if at + 1 + i > dot { assert host[i] == tld[i - (dot - at)]; }
    }
  }

  lemma ShapedIsPattern(s: string)
    requires EmailShaped(s)
    ensures MatchesEmailPattern(s)
  {
    var at := FirstIndexOf(s, '@').value;
    var middle := s[at + 2..|s| - 1];
    var j :| 0 <= j < |middle| && middle[j] == '.';
    var dot := at + 2 + j;
    assert s[dot] == '.';
    var rest, user, tld := s[at + 1..], s[at + 1..dot], s[dot + 1..];
    assert AllAddressChars(user) by {
      forall i | 0 <= i < |user| ensures IsAddressChar(user[i]) { assert user[i] == rest[i]; }
    }
    assert AllAddressChars(tld) by {
      forall i | 0 <= i < |tld| ensures IsAddressChar(tld[i]) { assert tld[i] == rest[i + dot - at]; }
    }
  }

  /** `validateEmail`: required, then the address pattern. */
  function ValidateEmail(email: string): (r: Option<string>)
    ensures email == "" ==> r == Some(EmailRequired)
    ensures email != "" ==> (r.None? <==> MatchesEmailPattern(email))
    ensures email != "" && r.Some? ==> r.value == EmailInvalid
  {
    EmailShapedIffPattern(email);
    if email == "" then Some(EmailRequired)
    else if !EmailShaped(email) then Some(EmailInvalid)
    else None
  }

  // ---------------------------------------------------------------------------
  // Passwords

  /**
   * `validatePassword`: required, then at least eight code units. The
   * upper/lower/digit rule is disabled in the source, so the characters
   * themselves never matter.
   */
  function ValidatePassword(password: string): (r: Option<string>)
    ensures r.None? <==> JsLength(password) >= 8
    ensures r == Some(PasswordRequired) <==> password == ""
    ensures r.Some? && password != "" ==> r.value == PasswordTooShort
  {
    if password == "" then Some(PasswordRequired)
    else if JsLength(password) < 8 then Some(PasswordTooShort)
    else None
  }

  /** Two passwords of the same length get the same verdict, whatever their characters. */
  lemma PasswordCharactersIgnored(a: string, b: string)
    requires JsLength(a) == JsLength(b)
    requires (a == "") == (b == "")
    ensures ValidatePassword(a) == ValidatePassword(b)
  {
  }

  /** `validateConfirmPassword`: required, then equal to the password. */
  function ValidateConfirmPassword(password: string, confirm: string): (r: Option<string>)
    ensures r.None? <==> confirm != "" && confirm == password
    ensures confirm == "" ==> r == Some(ConfirmRequired)
    ensures confirm != "" && confirm != password ==> r == Some(ConfirmMismatch)
  {
    if confirm == "" then Some(ConfirmRequired)
    else if password != confirm then Some(ConfirmMismatch)
    else None
  }

  // ---------------------------------------------------------------------------
  // Usernames and display names

  /** A character of `[a-zA-Z0-9_]`. */
  predicate IsUsernameChar(c: char) {
    ('a' <= c <= 'z') || ('A' <= c <= 'Z') || IsDigit(c) || c == '_'
  }

  predicate AllUsernameChars(s: string) {
    forall i :: 0 <= i < |s| ==> IsUsernameChar(s[i])
  }

  /**
   * `validateUsername`: required, at least 3, at most 20, then only letters,
   * digits and underscores; the first failing check gives the message.
   */
  function ValidateUsername(username: string): (r: Option<string>)
    ensures r.None? <==> 3 <= |username| <= 20 && AllUsernameChars(username)
    ensures username == "" ==> r == Some(UsernameRequired)
    ensures username != "" && JsLength(username) < 3 ==> r == Some(UsernameTooShort)
    ensures JsLength(username) > 20 ==> r == Some(UsernameTooLong)
    ensures 3 <= JsLength(username) <= 20 && !AllUsernameChars(username) ==> r == Some(UsernameCharset)
  {
    if username == "" then Some(UsernameRequired)
    else if JsLength(username) < 3 then Some(UsernameTooShort)
    else if JsLength(username) > 20 then Some(UsernameTooLong)
    else if !AllUsernameChars(username) then Some(UsernameCharset)
    else None
  }

  /** `validateDisplayName`: optional, but when given, 2 to 30 code units. */
  function ValidateDisplayName(displayName: string): (r: Option<string>)
    ensures r.None? <==> displayName == "" || 2 <= JsLength(displayName) <= 30
    ensures displayName != "" && JsLength(displayName) < 2 ==> r == Some(DisplayNameTooShort)
    ensures JsLength(displayName) > 30 ==> r == Some(DisplayNameTooLong)
  {
    if displayName == "" then None
    else if JsLength(displayName) < 2 then Some(DisplayNameTooShort)
    else if JsLength(displayName) > 30 then Some(DisplayNameTooLong)
    else None
  }
}
