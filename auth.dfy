// The username and password rules of utils/auth.go. Both validators walk the input rune by
// rune and set boolean flags; the methods below keep those loops and are proved against the
// rule each one implements.
module Auth {
  import opened Strings

  // The Unicode classes used by the validators, on the ASCII range (see README "Left out").
  predicate IsLetter(c: char) { IsAsciiLetter(c) }
  predicate IsDigit(c: char) { IsAsciiDigit(c) }
  predicate IsLower(c: char) { IsAsciiLower(c) }
  predicate IsUpper(c: char) { IsAsciiUpper(c) }
  /** unicode.IsPunct(c) || unicode.IsSymbol(c): the 32 printable ASCII characters that are not alphanumeric. */
  predicate IsPunctOrSymbol(c: char)
  {
    var n := c as int;
    (33 <= n <= 47) || (58 <= n <= 64) || (91 <= n <= 96) || (123 <= n <= 126)
  }

  predicate HasLetter(s: string) { exists i :: 0 <= i < |s| && IsLetter(s[i]) }
  predicate HasDigit(s: string) { exists i :: 0 <= i < |s| && IsDigit(s[i]) }

  // ---------------------------------------------------------------- usernames

  /** The returned expression as Go parses it: (len >= 3 && len <= 30 && letter && digit) || letter. */
  predicate UsernameRule(username: string)
  {
    (Utf8Len(username) >= 3 && Utf8Len(username) <= 30 && HasLetter(username) && HasDigit(username))
    || HasLetter(username)
  }

  /** The rule collapses to "contains a letter": the length bounds are never enforced. */
  lemma UsernameRuleIsHasLetter(username: string)
    ensures UsernameRule(username) <==> HasLetter(username)
  {
  }

  /** A one-letter name and a 31-letter name are both accepted. */
  lemma UsernameLengthIgnored()
    ensures UsernameRule("a") && Utf8Len("a") < 3
    ensures UsernameRule(seq(31, _ => 'a')) && Utf8Len(seq(31, _ => 'a')) > 30
  {
    assert IsLetter("a"[0]);
    var long := seq(31, _ => 'a');
    assert IsLetter(long[0]);
    assert AllAscii(long);
  }

  /** The documented rule: 3 to 30 bytes long and at least one letter. */
  predicate UsernameIntended(username: string)
  {
    3 <= Utf8Len(username) <= 30 && HasLetter(username)
  }

  /** The documented rule accepts a subset of what the code accepts, and only names of legal length. */
  lemma UsernameIntendedBounds(username: string)
    ensures UsernameIntended(username) ==> UsernameRule(username)
    ensures UsernameIntended(username) ==> |username| <= 30
    ensures !UsernameIntended("a")
  {
  }

  /** ValidateUsername: the flag loop followed by the returned expression. */
  method ValidateUsername(username: string) returns (ok: bool)
    ensures ok == UsernameRule(username)
    ensures ok <==> HasLetter(username)
  {
    var hasLetter, hasNumber := false, false;
    var i := 0;
    while i < |username|
      invariant 0 <= i <= |username|
      invariant hasLetter <==> HasLetter(username[..i])
      invariant hasNumber <==> HasDigit(username[..i])
    {
      var c := username[i];
      assert username[..i + 1] == username[..i] + [c];
      if IsLetter(c) {
        hasLetter := true;
      }
      if IsDigit(c) {
        hasNumber := true;
      }
      i := i + 1;
    }
    assert username[..i] == username;
    ok := (Utf8Len(username) >= 3 && Utf8Len(username) <= 30 && hasLetter && hasNumber) || hasLetter;
  }

  /** The corrected validator: the same loop, then the documented rule. */
  method ValidateUsernameIntended(username: string) returns (ok: bool)
    ensures ok == UsernameIntended(username)
    ensures ok ==> |username| <= 30 && HasLetter(username)
  {
    var hasLetter := false;
    var i := 0;
    while i < |username|
      invariant 0 <= i <= |username|
      invariant hasLetter <==> HasLetter(username[..i])
    {
      assert username[..i + 1] == username[..i] + [username[i]];
      if IsLetter(username[i]) {
        hasLetter := true;
      }
      i := i + 1;
    }
    assert username[..i] == username;
    ok := Utf8Len(username) >= 3 && Utf8Len(username) <= 30 && hasLetter;
  }

  // ---------------------------------------------------------------- passwords

  /** The flag a character sets: the first case of the switch that matches it. */
  datatype CharClass = Lower | Upper | Digit | Special | NoClass

  function Classify(c: char): (k: CharClass)
    ensures k == Lower <==> IsLower(c)
    ensures k == Upper <==> IsUpper(c) && !IsLower(c)
    ensures k == Digit <==> IsDigit(c) && !IsLower(c) && !IsUpper(c)
    ensures k == Special <==> IsPunctOrSymbol(c) && !IsLower(c) && !IsUpper(c) && !IsDigit(c)
  {
    if IsLower(c) then Lower
    else if IsUpper(c) then Upper
    else if IsDigit(c) then Digit
    else if IsPunctOrSymbol(c) then Special
    else NoClass
  }

  predicate HasClass(s: string, k: CharClass) { exists i :: 0 <= i < |s| && Classify(s[i]) == k }

  /** At least 8 bytes, and a lowercase, an uppercase, a digit and a punctuation or symbol character. */
  predicate PasswordRule(password: string)
  {
    Utf8Len(password) >= 8
    && HasClass(password, Lower) && HasClass(password, Upper)
    && HasClass(password, Digit) && HasClass(password, Special)
  }

  /** ValidatePassword: the length guard, then the flag loop. */
  method ValidatePassword(password: string) returns (ok: bool)
    ensures ok == PasswordRule(password)
    ensures Utf8Len(password) < 8 ==> !ok
  {
    if Utf8Len(password) < 8 {
      return false;
    }
    var hasLower, hasUpper, hasNumber, hasSpecial := false, false, false, false;
    var i := 0;
    while i < |password|
      invariant 0 <= i <= |password|
      invariant hasLower <==> HasClass(password[..i], Lower)
      invariant hasUpper <==> HasClass(password[..i], Upper)
      invariant hasNumber <==> HasClass(password[..i], Digit)
      invariant hasSpecial <==> HasClass(password[..i], Special)
    {
      var c := password[i];
      assert password[..i + 1] == password[..i] + [c];
      if IsLower(c) {
        hasLower := true;
      } else if IsUpper(c) {
        hasUpper := true;
      } else if IsDigit(c) {
        hasNumber := true;
      } else if IsPunctOrSymbol(c) {
        hasSpecial := true;
      }
      i := i + 1;
    }
    assert password[..i] == password;
    ok := hasLower && hasUpper && hasNumber && hasSpecial;
  }

  /** Fewer than 8 characters never pass, whatever they are. */
  lemma ShortPasswordRejected(password: string)
    requires |password| < 8 && AllAscii(password)
    ensures !PasswordRule(password)
  {
  }

  lemma {:induction false} Utf8LenAppend(a: string, b: string)
    ensures Utf8Len(a + b) == Utf8Len(a) + Utf8Len(b)
  {
    if a == [] {
      assert a + b == b;
    } else {
      assert (a + b)[1..] == a[1..] + b;
      Utf8LenAppend(a[1..], b);
    }
  }

  /** The flags are only ever set, so adding characters on either side keeps a password valid. */
  lemma PasswordExtension(before: string, password: string, after: string)
    requires PasswordRule(password)
    ensures PasswordRule(before + password + after)
  {
    var p := before + password + after;
    Utf8LenAppend(before, password);
    Utf8LenAppend(before + password, after);
    forall k | HasClass(password, k) ensures HasClass(p, k) {
      var i :| 0 <= i < |password| && Classify(password[i]) == k;
      assert p[|before| + i] == password[i];
    }
  }
}
