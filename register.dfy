/** The registration screen's form (app/auth/register.jsx): the arithmetic captcha, its
    check as the user types, and the ordered validation that decides whether `register` is
    called. The random numbers are parameters. */
module Registration {
  import opened Wrappers
  import opened Text

  const NicknameMissing := "Введите никнейм"
  const NicknameTooShort := "Никнейм должен быть не менее 3 символов"
  const EmailMissing := "Введите email"
  const EmailMalformed := "Введите корректный email"
  const PasswordMissing := "Введите пароль"
  const PasswordTooShort := "Пароль должен быть не менее 6 символов"
  const PasswordsDiffer := "Пароли не совпадают"
  const CaptchaUnsolved := "Пожалуйста, пройдите проверку \"Я не робот\""

  /** Part of an address: non-empty, without white space or '@'. */
  predicate PlainPart(t: string) {
    t != [] && forall k :: 0 <= k < |t| ==> !IsSpace(t[k]) && t[k] != '@'
  }

  /** `/^[^\s@]+@[^\s@]+\.[^\s@]+$/.test(s)`: `s` splits as local part, '@', domain name,
      '.', and last label, each part non-empty and free of white space and '@'. */
  predicate MatchesEmailPattern(s: string) {
    exists i, j :: 0 < i < j - 1 && j < |s| - 1 && s[i] == '@' && s[j] == '.'
                   && PlainPart(s[..i]) && PlainPart(s[i + 1..j]) && PlainPart(s[j + 1..])
  }

  /** `s` has its only '@' at `i`. */
  predicate OnlyAtSignAt(s: string, i: int) {
    0 <= i < |s| && s[i] == '@' && forall k :: 0 <= k < |s| && s[k] == '@' ==> k == i
  }

  /** A matching address has no white space and its only '@' where the pattern put it. */
  lemma EmailPatternSound(s: string, i: int, j: int)
    requires 0 < i < j - 1 && j < |s| - 1 && s[i] == '@' && s[j] == '.'
    requires PlainPart(s[..i]) && PlainPart(s[i + 1..j]) && PlainPart(s[j + 1..])
    ensures NoSpace(s) && OnlyAtSignAt(s, i)
  {
    forall k | 0 <= k < |s|
      ensures !IsSpace(s[k]) && (s[k] == '@' ==> k == i)
    {
      if k < i {
        assert s[k] == s[..i][k];
      } else if i < k < j {
        assert s[k] == s[i + 1..j][k - i - 1];
      } else if j < k {
        assert s[k] == s[j + 1..][k - j - 1];
      }
    }
  }

  /** An address without white space whose only '@' is at `i` and has a '.' at `j`
      within the domain splits as the pattern asks. */
  lemma EmailPatternComplete(s: string, i: int, j: int)
    requires NoSpace(s) && OnlyAtSignAt(s, i) && 0 < i && i + 1 < j < |s| - 1 && s[j] == '.'
    ensures PlainPart(s[..i]) && PlainPart(s[i + 1..j]) && PlainPart(s[j + 1..])
  {
  }

  /** The pattern in plain terms: no white space, exactly one '@', not first, and a '.' in
      the domain that is neither its first nor the last character. */
  lemma EmailPatternIff(s: string)
    ensures MatchesEmailPattern(s) <==>
              NoSpace(s) && exists i, j :: OnlyAtSignAt(s, i) && 0 < i && i + 1 < j < |s| - 1 && s[j] == '.'
  {
    if MatchesEmailPattern(s) {
      var i, j :| 0 < i < j - 1 && j < |s| - 1 && s[i] == '@' && s[j] == '.'
                  && PlainPart(s[..i]) && PlainPart(s[i + 1..j]) && PlainPart(s[j + 1..]);
      EmailPatternSound(s, i, j);
    }
    if NoSpace(s) && exists i, j :: OnlyAtSignAt(s, i) && 0 < i && i + 1 < j < |s| - 1 && s[j] == '.' {
      var i, j :| OnlyAtSignAt(s, i) && 0 < i && i + 1 < j < |s| - 1 && s[j] == '.';
      EmailPatternComplete(s, i, j);
    }
  }

  /** The outcome of pressing the register button: an alert with the first failed check,
      or the call `register(email, password, nickname, photo)`. */
  datatype Submission = Rejected(message: string) | Submitted(email: string, password: string, nickname: string)

  predicate NicknameAccepted(nickname: string) {
    nickname != "" && Trim(nickname) != "" && Utf16Length(Trim(nickname)) >= 3
  }

  predicate EmailAccepted(email: string) {
    email != "" && Trim(email) != "" && MatchesEmailPattern(email)
  }

  predicate PasswordAccepted(password: string, confirmPassword: string) {
    password != "" && Trim(password) != "" && Utf16Length(password) >= 6 && password == confirmPassword
  }

  /** The checks of `handleRegister` in their order: nickname, email, password and its
      confirmation, captcha. The first that fails is reported, and the form is submitted
      exactly when all pass. */
  function CheckForm(nickname: string, email: string, password: string, confirmPassword: string,
                     captchaVerified: bool): Submission
  {
    if nickname == "" || Trim(nickname) == "" then Rejected(NicknameMissing)
    else if Utf16Length(Trim(nickname)) < 3 then Rejected(NicknameTooShort)
    else if email == "" || Trim(email) == "" then Rejected(EmailMissing)
    else if !MatchesEmailPattern(email) then Rejected(EmailMalformed)
    else if password == "" || Trim(password) == "" then Rejected(PasswordMissing)
    else if Utf16Length(password) < 6 then Rejected(PasswordTooShort)
    else if password != confirmPassword then Rejected(PasswordsDiffer)
    else if !captchaVerified then Rejected(CaptchaUnsolved)
    else Submitted(email, password, nickname)
  }

  /** The verdict of the checks: submitted exactly when every check passes, with the
      form's own address, password and nickname; otherwise the message of the first group
      of checks that fails. */
  lemma CheckFormOutcomes(nickname: string, email: string, password: string, confirmPassword: string,
                          captchaVerified: bool)
    ensures CheckForm(nickname, email, password, confirmPassword, captchaVerified).Submitted? <==>
              NicknameAccepted(nickname) && EmailAccepted(email)
              && PasswordAccepted(password, confirmPassword) && captchaVerified
    ensures var s := CheckForm(nickname, email, password, confirmPassword, captchaVerified);
            s.Submitted? ==> s == Submitted(email, password, nickname)
    ensures !NicknameAccepted(nickname) ==>
              var s := CheckForm(nickname, email, password, confirmPassword, captchaVerified);
              s.Rejected? && (s.message == NicknameMissing || s.message == NicknameTooShort)
    ensures NicknameAccepted(nickname) && !EmailAccepted(email) ==>
              var s := CheckForm(nickname, email, password, confirmPassword, captchaVerified);
              s.Rejected? && (s.message == EmailMissing || s.message == EmailMalformed)
    ensures NicknameAccepted(nickname) && EmailAccepted(email) && !PasswordAccepted(password, confirmPassword) ==>
              var s := CheckForm(nickname, email, password, confirmPassword, captchaVerified);
              s.Rejected? && (s.message == PasswordMissing || s.message == PasswordTooShort || s.message == PasswordsDiffer)
  {
    var s := CheckForm(nickname, email, password, confirmPassword, captchaVerified);
    if !NicknameAccepted(nickname) {
      assert s == Rejected(NicknameMissing) || s == Rejected(NicknameTooShort);
    } else if !EmailAccepted(email) {
      assert s == Rejected(EmailMissing) || s == Rejected(EmailMalformed);
    } else if !PasswordAccepted(password, confirmPassword) {
      assert s == Rejected(PasswordMissing) || s == Rejected(PasswordTooShort) || s == Rejected(PasswordsDiffer);
    } else if !captchaVerified {
      assert s == Rejected(CaptchaUnsolved);
    } else {
      assert s == Submitted(email, password, nickname);
    }
  }

  /** What a submitted form guarantees: a nickname of at least three characters after
      trimming, an address with a single '@' and no white space, and a password of at least
      six characters that was typed twice alike. */
  lemma SubmittedFormShape(nickname: string, email: string, password: string, confirmPassword: string)
    requires CheckForm(nickname, email, password, confirmPassword, true).Submitted?
    ensures Utf16Length(Trim(nickname)) >= 3 && Utf16Length(password) >= 6 && password == confirmPassword
    ensures NoSpace(email) && exists i :: OnlyAtSignAt(email, i)
  {
    CheckFormOutcomes(nickname, email, password, confirmPassword, true);
    EmailPatternIff(email);
  }

  /** The captcha question: two numbers and their sum. */
  datatype Captcha = Captcha(num1: int, num2: int, answer: int)

  /** A generated question: both numbers in 1..10, the answer their sum. */
  predicate WellFormedCaptcha(q: Captcha) {
    1 <= q.num1 <= 10 && 1 <= q.num2 <= 10 && q.answer == q.num1 + q.num2
  }

  /** `handleCaptchaChange`'s verdict on `text`: blank input is unverified, other input is
      verified when `parseInt` reads the answer from it. */
  predicate CaptchaAccepts(q: Captcha, text: string) {
    Trim(text) != "" && ParseInt(text) == Some(q.answer)
  }

  /** Typing the sum solves the captcha. */
  lemma TypingTheSumVerifies(q: Captcha)
    requires WellFormedCaptcha(q)
    ensures CaptchaAccepts(q, NatToString(q.answer))
  {
    var s := NatToString(q.answer);
    ParseIntOfNatToString(q.answer);
    assert !IsSpace(s[0]) && !IsSpace(s[|s| - 1]);
    TrimOfTrimmed(s);
  }

  /** Typing any other number does not. */
  lemma TypingAnotherNumberFails(q: Captcha, n: nat)
    requires n != q.answer
    ensures !CaptchaAccepts(q, NatToString(n))
  {
    ParseIntOfNatToString(n);
  }

  /** `parseInt` without a radix also reads hexadecimal, so "0x" followed by the sum in
      hexadecimal digits solves the captcha too. */
  lemma {:induction false} HexSumVerifies(q: Captcha, ds: string)
    requires ds != [] && forall i :: 0 <= i < |ds| ==> IsHexDigit(ds[i])
    requires HexDigitsValue(ds) == q.answer
    ensures CaptchaAccepts(q, "0x" + ds)
  {
    ParseIntOfHex(ds);
    HexTextTrimmed(ds);
  }

  /** "0x" followed by hexadecimal digits has no surrounding white space. */
  lemma {:induction false} HexTextTrimmed(ds: string)
    requires ds != [] && forall i :: 0 <= i < |ds| ==> IsHexDigit(ds[i])
    ensures Trim("0x" + ds) == "0x" + ds
  {
    var s := "0x" + ds;
    assert s[0] == '0' && s[|s| - 1] == ds[|ds| - 1];
    assert IsHexDigit(ds[|ds| - 1]);
    TrimOfTrimmed(s);
  }

  /** The state of the registration screen that the validation reads and writes. */
  class RegisterForm {
    var nickname: string
    var email: string
    var password: string
    var confirmPassword: string
    var captcha: Captcha
    var captchaAnswer: string
    var captchaVerified: bool
    var loading: bool

    /** The initial state: empty fields, the placeholder question 0 + 0 = 0, unverified, not
        loading. The first question is generated when the screen mounts. */
    constructor()
      ensures nickname == "" && email == "" && password == "" && confirmPassword == ""
      ensures captcha == Captcha(0, 0, 0) && captchaAnswer == "" && !captchaVerified && !loading
    {
      nickname, email, password, confirmPassword := "", "", "", "";
      captcha := Captcha(0, 0, 0);
      captchaAnswer := "";
      captchaVerified := false;
      loading := false;
    }

    /** `generateCaptcha`, where `r1` and `r2` are `Math.floor(Math.random() * 10)`: a new
        question with both numbers in 1..10, the answer cleared and verification reset. */
    method GenerateCaptcha(r1: nat, r2: nat)
      requires r1 < 10 && r2 < 10
      modifies this
      ensures captcha == Captcha(r1 + 1, r2 + 1, r1 + r2 + 2) && WellFormedCaptcha(captcha)
      ensures captchaAnswer == "" && !captchaVerified
      ensures nickname == old(nickname) && email == old(email) && password == old(password)
      ensures confirmPassword == old(confirmPassword) && loading == old(loading)
    {
      var num1 := r1 + 1;
      var num2 := r2 + 1;
      captcha := Captcha(num1, num2, num1 + num2);
      captchaAnswer := "";
      captchaVerified := false;
    }

    /** `verifyCaptcha(answer)`: verified when `parseInt` reads the answer; reset when the
        input is non-empty and reads otherwise; left as it was for empty input. */
    method VerifyCaptcha(answer: string)
      modifies this
      ensures ParseInt(answer) == Some(captcha.answer) ==> captchaVerified
      ensures ParseInt(answer) != Some(captcha.answer) && |answer| > 0 ==> !captchaVerified
      ensures answer == "" ==> captchaVerified == old(captchaVerified)
      ensures captcha == old(captcha) && captchaAnswer == old(captchaAnswer) && loading == old(loading)
      ensures nickname == old(nickname) && email == old(email) && password == old(password)
      ensures confirmPassword == old(confirmPassword)
    {
      var parsed := ParseInt(answer);
      if parsed == Some(captcha.answer) {
        captchaVerified := true;
      } else if |answer| > 0 && parsed != Some(captcha.answer) {
        captchaVerified := false;
      }
    }

    /** `handleCaptchaChange(text)`: the input is stored and the verdict is recomputed. */
    method HandleCaptchaChange(text: string)
      modifies this
      ensures captchaAnswer == text
      ensures captchaVerified == CaptchaAccepts(captcha, text)
      ensures captcha == old(captcha) && loading == old(loading)
      ensures nickname == old(nickname) && email == old(email) && password == old(password)
      ensures confirmPassword == old(confirmPassword)
    {
      captchaAnswer := text;
      if Trim(text) != "" {
        VerifyCaptcha(text);
      } else {
        captchaVerified := false;
      }
    }

    /** The checks of `handleRegister`, in order, on the current fields; the first that
        fails gives the message shown. */
    method ValidateForm() returns (s: Submission)
      ensures s == CheckForm(nickname, email, password, confirmPassword, captchaVerified)
    {
      if nickname == "" || Trim(nickname) == "" {
        return Rejected(NicknameMissing);
      }
      if Utf16Length(Trim(nickname)) < 3 {
        return Rejected(NicknameTooShort);
      }
      if email == "" || Trim(email) == "" {
        return Rejected(EmailMissing);
      }
      if !MatchesEmailPattern(email) {
        return Rejected(EmailMalformed);
      }
      if password == "" || Trim(password) == "" {
        return Rejected(PasswordMissing);
      }
      if Utf16Length(password) < 6 {
        return Rejected(PasswordTooShort);
      }
      if password != confirmPassword {
        return Rejected(PasswordsDiffer);
      }
      if !captchaVerified {
        return Rejected(CaptchaUnsolved);
      }
      s := Submitted(email, password, nickname);
    }

    /** `handleRegister` up to the call of `register`: the form's verdict, and the loading
        indicator switched on exactly when the form is submitted. */
    method HandleRegister() returns (s: Submission)
      modifies this
      ensures s == CheckForm(nickname, email, password, confirmPassword, captchaVerified)
      ensures loading == (old(loading) || s.Submitted?)
      ensures nickname == old(nickname) && email == old(email) && password == old(password)
      ensures confirmPassword == old(confirmPassword) && captcha == old(captcha)
      ensures captchaAnswer == old(captchaAnswer) && captchaVerified == old(captchaVerified)
    {
      s := ValidateForm();
      if s.Submitted? {
        loading := true;
      }
    }
  }
}
