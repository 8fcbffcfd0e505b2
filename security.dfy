/** Password and input helpers: the password check guard, the strength rule, the
    six-digit recovery code and the quote-stripping sanitiser. Hashing itself is
    done by bcrypt and is not modelled. */
module Security {
  import opened Base
  import opened Text

  /** A JavaScript string argument that may be missing: `None` or "" is falsy. */
  predicate Falsy(s: Option<string>)
  {
    s.None? || s.value == ""
  }

  datatype Check = Check(matches: bool, comparedWithBcrypt: bool)

  /** `verifyPassword`, with `bcrypt.compare` given as `compare`. */
  function VerifyPassword(password: Option<string>, hashed: Option<string>,
                          compare: (string, string) -> bool): (r: Check)
    ensures Falsy(password) || Falsy(hashed) ==> r == Check(false, false)
    ensures !Falsy(password) && !Falsy(hashed) ==>
      r.comparedWithBcrypt && r.matches == compare(password.value, hashed.value)
  {
    if Falsy(password) || Falsy(hashed) then Check(false, false)
    else Check(compare(password.value, hashed.value), true)
  }

  datatype Strength = Strong | Weak(message: string)

  /** `validatePasswordStrength`, with the minimum length as a parameter (the
      constant it reads is not exported by the constants module). */
  function PasswordStrength(password: string, minLength: nat): (r: Strength)
    ensures r.Strong? <==>
      && |password| >= minLength
      && (exists i :: 0 <= i < |password| && IsUpper(password[i]))
      && (exists i :: 0 <= i < |password| && IsLower(password[i]))
      && (exists i :: 0 <= i < |password| && IsDigit(password[i]))
    ensures |password| < minLength ==>
      r == Weak("A senha deve ter pelo menos " + NatToDecimal(minLength) + " caracteres")
  {
    CountWherePositive(password, IsUpper);
    CountWherePositive(password, IsLower);
    CountWherePositive(password, IsDigit);
    if |password| < minLength then
      Weak("A senha deve ter pelo menos " + NatToDecimal(minLength) + " caracteres")
    else if CountWhere(password, IsUpper) == 0 || CountWhere(password, IsLower) == 0
         || CountWhere(password, IsDigit) == 0 then
      Weak("A senha deve conter letras maiúsculas, minúsculas e números")
    else Strong
  }

  /** `generateRecoveryCode`: `draw` is `Math.floor(Math.random() * 900000)`. */
  function RecoveryCode(draw: nat): (code: string)
    requires draw < 900000
    ensures |code| == 6
    ensures forall i :: 0 <= i < 6 ==> IsDigit(code[i])
    ensures code[0] != '0'
    ensures 100000 <= DecimalValue(code) <= 999999 && DecimalValue(code) == 100000 + draw
  {
    var n := 100000 + draw;
    SixDigits(n);
    DecimalRoundTrip(n);
    DecimalNoLeadingZero(n);
    NatToDecimal(n)
  }

  /** The characters `sanitizeInput` deletes: ' " \ ; */
  predicate Unsafe(c: char)
  {
    c == '\'' || c == '"' || c == '\\' || c == ';'
  }

  /** `input.replace(/['"\\;]/g, '')`: the string without those characters, the others
      kept in order. */
  function StripUnsafe(s: string): (r: string)
    ensures forall c :: c in r <==> c in s && !Unsafe(c)
    ensures |r| == |s| - CountWhere(s, Unsafe)
  {
    if s == [] then []
    else
      var init := s[..|s| - 1];
      var last := s[|s| - 1];
      assert s == init + [last];
      StripUnsafe(init) + (if Unsafe(last) then [] else [last])
  }

  /** The sanitiser works character by character: it commutes with concatenation,
      so the kept characters stay in their order. */
  lemma {:induction false} StripUnsafeConcat(a: string, b: string)
    ensures StripUnsafe(a + b) == StripUnsafe(a) + StripUnsafe(b)
    decreases |b|
  {
    if b == [] {
      assert a + b == a;
    } else {
      var b0 := b[..|b| - 1];
      assert (a + b)[..|a + b| - 1] == a + b0;
      StripUnsafeConcat(a, b0);
    }
  }

  /** Strings without those characters are left alone. */
  lemma {:induction false} StripUnsafeKeepsSafe(s: string)
    requires forall i :: 0 <= i < |s| ==> !Unsafe(s[i])
    ensures StripUnsafe(s) == s
  {
    if s != [] {
      var init := s[..|s| - 1];
      assert forall i :: 0 <= i < |init| ==> init[i] == s[i];
      StripUnsafeKeepsSafe(init);
      assert !Unsafe(s[|s| - 1]);
      assert init + [s[|s| - 1]] == s;
    }
  }

  /** Sanitising twice is sanitising once. */
  lemma StripUnsafeIdempotent(s: string)
    ensures StripUnsafe(StripUnsafe(s)) == StripUnsafe(s)
  {
    var r := StripUnsafe(s);
    forall i | 0 <= i < |r| ensures !Unsafe(r[i]) {
      assert r[i] in r;
    }
    StripUnsafeKeepsSafe(r);
  }

  /** A value handed to `sanitizeInput`. */
  datatype Input<T> = TextInput(s: string) | OtherInput(v: T)

  /** `sanitizeInput`: strings are stripped, anything else passes through. */
  function SanitizeInput<T>(input: Input<T>): (r: Input<T>)
    ensures input.OtherInput? ==> r == input
    ensures input.TextInput? ==> r == TextInput(StripUnsafe(input.s))
    ensures input.TextInput? ==> r.TextInput? && forall i :: 0 <= i < |r.s| ==> !Unsafe(r.s[i])
  {
    match input
    case TextInput(s) =>
      var r := StripUnsafe(s);
      assert forall i :: 0 <= i < |r| ==> r[i] in r;
      TextInput(r)
    case OtherInput(_) => input
  }
}
