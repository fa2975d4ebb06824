/**
 * The storefront's registration form check: the four field rules, run in
 * order and stopping at the first failure. Each regular expression is
 * restated as a predicate on characters, and each has a single-pass scanner
 * proved to decide it.
 */
module Register {
  import opened Wrappers
  import opened Text

  /** Trimmed full names shorter than this are refused. */
  const MinNameLength := 6

  /** The special characters the password rule accepts. */
  predicate IsSpecial(c: char) {
    c == '@' || c == '$' || c == '!' || c == '%' || c == '*' || c == '?' || c == '&'
  }

  /** `[A-Za-z\d@$!%*?&]`. */
  predicate PasswordChar(c: char) {
    IsUpperAscii(c) || IsLowerAscii(c) || IsDigit(c) || IsSpecial(c)
  }

  /** `[^\s@]`, with `\s` the JavaScript white-space set. */
  predicate EmailChar(c: char) {
    !IsJsSpace(c) && c != '@'
  }

  /**
   * `/^[^\s@]+@[^\s@]+\.[^\s@]+$/`: one '@' with something before it, and
   * after it a '.' with something on both sides; nothing is white space.
   */
  predicate EmailPattern(s: string) {
    exists a, d :: 0 < a && a + 1 < d < |s| - 1 && s[a] == '@' && s[d] == '.'
      && forall i :: 0 <= i < |s| && i != a ==> EmailChar(s[i])
  }

  /** `/^[0-9]{10}$/`. */
  predicate PhonePattern(s: string) {
    |s| == 10 && forall i :: 0 <= i < |s| ==> IsDigit(s[i])
  }

  /**
   * `/^(?=.*[a-z])(?=.*[A-Z])(?=.*\d)(?=.*[@$!%*?&])[A-Za-z\d@$!%*?&]{8,}$/`:
   * eight or more characters from the allowed set, among them a lowercase
   * letter, an uppercase letter, a digit and a special character.
   */
  predicate PasswordPattern(s: string) {
    && |s| >= 8
    && (forall i :: 0 <= i < |s| ==> PasswordChar(s[i]))
    && (exists i :: 0 <= i < |s| && IsLowerAscii(s[i]))
    && (exists i :: 0 <= i < |s| && IsUpperAscii(s[i]))
    && (exists i :: 0 <= i < |s| && IsDigit(s[i]))
    && (exists i :: 0 <= i < |s| && IsSpecial(s[i]))
  }

  datatype RegisterForm = RegisterForm(fullName: string, email: string, phoneNumber: string, password: string)

  datatype FormError = NameTooShort | InvalidEmail | InvalidPhone | WeakPassword

  /** The full name as counted: JavaScript `trim()`. */
  function TrimmedName(name: string): string {
    Trim(name, IsJsSpace)
  }

  /** validateForm: the first failing rule, in the order name, email, phone, password; `None` when all pass. */
  function ValidateForm(f: RegisterForm): (r: Option<FormError>)
    ensures r.None? <==> Utf16Length(TrimmedName(f.fullName)) >= MinNameLength && EmailPattern(f.email)
                         && PhonePattern(f.phoneNumber) && PasswordPattern(f.password)
    ensures r == Some(NameTooShort) <==> Utf16Length(TrimmedName(f.fullName)) < MinNameLength
    ensures r == Some(InvalidEmail) <==> Utf16Length(TrimmedName(f.fullName)) >= MinNameLength && !EmailPattern(f.email)
    ensures r == Some(InvalidPhone) <==>
      Utf16Length(TrimmedName(f.fullName)) >= MinNameLength && EmailPattern(f.email) && !PhonePattern(f.phoneNumber)
    ensures r == Some(WeakPassword) <==>
      Utf16Length(TrimmedName(f.fullName)) >= MinNameLength && EmailPattern(f.email) && PhonePattern(f.phoneNumber)
      && !PasswordPattern(f.password)
  {
    if Utf16Length(TrimmedName(f.fullName)) < MinNameLength then Some(NameTooShort)
    else if !EmailPattern(f.email) then Some(InvalidEmail)
    else if !PhonePattern(f.phoneNumber) then Some(InvalidPhone)
    else if !PasswordPattern(f.password) then Some(WeakPassword)
    else None
  }

  // ---------------------------------------------------------------------------
  // Scanners

  /** The phone rule as one pass over the input. */
  method CheckPhone(s: string) returns (ok: bool)
    ensures ok <==> PhonePattern(s)
  {
    if |s| != 10 {
      return false;
    }
    var i := 0;
    while i < |s|
      invariant 0 <= i <= |s|
      invariant forall k :: 0 <= k < i ==> IsDigit(s[k])
    {
      if !IsDigit(s[i]) {
        return false;
      }
      i := i + 1;
    }
    return true;
  }

  /** The password rule as one pass, collecting the four "seen one" flags. */
  method CheckPassword(s: string) returns (ok: bool)
    ensures ok <==> PasswordPattern(s)
  {
    var lower, upper, digit, special := false, false, false, false;
    var i := 0;
    while i < |s|
      invariant 0 <= i <= |s|
      invariant forall k :: 0 <= k < i ==> PasswordChar(s[k])
      invariant lower <==> exists k :: 0 <= k < i && IsLowerAscii(s[k])
      invariant upper <==> exists k :: 0 <= k < i && IsUpperAscii(s[k])
      invariant digit <==> exists k :: 0 <= k < i && IsDigit(s[k])
      invariant special <==> exists k :: 0 <= k < i && IsSpecial(s[k])
    {
      var c := s[i];
      if !PasswordChar(c) {
        return false;
      }
      lower := lower || IsLowerAscii(c);
      upper := upper || IsUpperAscii(c);
      digit := digit || IsDigit(c);
      special := special || IsSpecial(c);
      i := i + 1;
    }
    ok := |s| >= 8 && lower && upper && digit && special;
  }

  /**
   * The e-mail rule as one pass: remember the first '@', refuse a second one
   * or any white space, and remember the first '.' that has something
   * between it and the '@'.
   */
  method CheckEmail(s: string) returns (ok: bool)
    ensures ok <==> EmailPattern(s)
  {
    var at: int := -1;
    var dot: int := -1;
    var i := 0;
    while i < |s|
      invariant 0 <= i <= |s|
      invariant -1 <= at < i
      invariant forall k :: 0 <= k < i && k != at ==> EmailChar(s[k])
      invariant at >= 0 ==> s[at] == '@'
      invariant at < 0 ==> dot < 0 && forall k :: 0 <= k < i ==> s[k] != '@'
      invariant dot >= 0 ==> at >= 0 && at + 1 < dot < i && s[dot] == '.'
      invariant dot >= 0 ==> forall k :: at + 1 < k < dot ==> s[k] != '.'
      invariant at >= 0 && dot < 0 ==> forall k :: at + 1 < k < i ==> s[k] != '.'
    {
      var c := s[i];
      if IsJsSpace(c) {
        assert !EmailChar(s[i]);
        return false;
      }
      if c == '@' {
        if at >= 0 {
          assert s[at] == '@' && s[i] == '@' && at != i;
          assert !EmailPattern(s);
          return false;
        }
        at := i;
      } else if c == '.' && at >= 0 && i > at + 1 && dot < 0 {
        dot := i;
      }
      i := i + 1;
    }
    ok := at > 0 && dot >= 0 && dot < |s| - 1;
    if ok {
      assert 0 < at && at + 1 < dot < |s| - 1 && s[at] == '@' && s[dot] == '.';
    } else {
      assert forall a :: 0 <= a < |s| && s[a] == '@' ==> a == at;
      assert !EmailPattern(s);
    }
  }

  lemma SampleEmail()
    ensures EmailPattern("asha@mail.in")
    ensures !EmailPattern("asha@mail.")
  {
    var email := "asha@mail.in";
    assert email[4] == '@' && email[9] == '.';
    assert forall i :: 0 <= i < |email| && i != 4 ==> EmailChar(email[i]);
  }

  lemma SamplePassword()
    ensures PasswordPattern("Passw0rd!")
    ensures !PasswordPattern("password1!")
  {
    var pw := "Passw0rd!";
    assert IsUpperAscii(pw[0]) && IsLowerAscii(pw[1]) && IsDigit(pw[5]) && IsSpecial(pw[8]);
    var weak := "password1!";
    assert forall i :: 0 <= i < |weak| ==> !IsUpperAscii(weak[i]);
  }

  /**
   * Trimming keeps only characters of the name, so a name without astral
   * characters is as long in code units as in characters once trimmed.
   */
  lemma BmpNameLength(name: string)
    requires forall i :: 0 <= i < |name| ==> !IsAstral(name[i])
    ensures Utf16Length(TrimmedName(name)) == |TrimmedName(name)|
  {
    var t1 := TrimStart(name, IsJsSpace);
    var t := TrimEnd(t1, IsJsSpace);
    forall i | 0 <= i < |t| ensures !IsAstral(t[i]) {
      assert t[i] == t1[i];
      assert t1[i] == name[|name| - |t1| + i];
    }
  }

  lemma SampleName()
    ensures Utf16Length(TrimmedName("Asha Rao")) == 8
  {
    var name := "Asha Rao";
    var t := TrimStart(name, IsJsSpace);
    assert !IsJsSpace(name[0]);
    assert t == name;
    assert !IsJsSpace(name[7]);
    BmpNameLength(name);
  }

  lemma SamplePaddedName()
    ensures Utf16Length(TrimmedName("Ash   ")) < MinNameLength
  {
    var padded := "Ash   ";
    var t := TrimStart(padded, IsJsSpace);
    assert |t| <= 6;
    if |t| == 6 {
      assert t == padded;
      assert IsJsSpace(t[5]);
    }
    BmpNameLength(padded);
  }

  /**
   * Three mathematical bold capitals make a name of three characters but
   * six UTF-16 code units, so the name rule lets it through.
   */
  lemma SampleAstralName()
    ensures Utf16Length(TrimmedName("\U{1D400}\U{1D401}\U{1D402}")) == 6
    ensures ValidateForm(RegisterForm("\U{1D400}\U{1D401}\U{1D402}", "x", "", "")) == Some(InvalidEmail)
  {
    var name := "\U{1D400}\U{1D401}\U{1D402}";
    var t := TrimStart(name, IsJsSpace);
    assert !IsJsSpace(name[0]);
    assert t == name;
    assert !IsJsSpace(name[2]);
    assert TrimmedName(name) == name;
    assert IsAstral(name[0]) && IsAstral(name[1]) && IsAstral(name[2]);
    assert name[1..][1..][1..] == [];
  }

  lemma SamplePhone()
    ensures PhonePattern("9876543210")
    ensures !PhonePattern("98765 4321")
  {
    var bad := "98765 4321";
    assert !IsDigit(bad[5]);
  }

  /** A filled-in form that passes every rule. */
  lemma SampleFormPasses()
    ensures ValidateForm(RegisterForm("Asha Rao", "asha@mail.in", "9876543210", "Passw0rd!")) == None
  {
    SampleEmail();
    SamplePassword();
    SamplePhone();
    SampleName();
    var f := RegisterForm("Asha Rao", "asha@mail.in", "9876543210", "Passw0rd!");
    assert Utf16Length(TrimmedName(f.fullName)) >= MinNameLength && EmailPattern(f.email);
    assert PhonePattern(f.phoneNumber) && PasswordPattern(f.password);
  }

  /** The same form with a name that is short once trimmed. */
  lemma SampleShortName()
    ensures ValidateForm(RegisterForm("Ash   ", "asha@mail.in", "9876543210", "Passw0rd!")) == Some(NameTooShort)
  {
    SamplePaddedName();
  }
}
