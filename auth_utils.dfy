/**
 * The client's authentication helpers: the password rules shown at registration, the expiry
 * test on a stored token, and the hex text of a secure random token.
 */
module AuthUtils {
  import opened Wrappers
  import opened Seqs

  // ---------------------------------------------------------------------------------------------
  // Password rules

  /** The five rules, in the order their messages are reported. */
  datatype Rule = MinLength | Uppercase | Lowercase | Digit | Special

  const Rules: seq<Rule> := [MinLength, Uppercase, Lowercase, Digit, Special]

  /** The characters of the `[!@#$%^&*(),.?":{}|<>]` class. */
  const SpecialCharacters: string := "!@#$%^&*(),.?\":{}|<>"

  function Rank(r: Rule): int {
    match r
    case MinLength => 0
    case Uppercase => 1
    case Lowercase => 2
    case Digit => 3
    case Special => 4
  }

  function Message(r: Rule): string {
    match r
    case MinLength => "Password must be at least 8 characters long"
    case Uppercase => "Password must contain at least one uppercase letter"
    case Lowercase => "Password must contain at least one lowercase letter"
    case Digit => "Password must contain at least one number"
    case Special => "Password must contain at least one special character"
  }

  predicate IsUpper(c: char) { 'A' <= c <= 'Z' }
  predicate IsLower(c: char) { 'a' <= c <= 'z' }
  predicate IsDigit(c: char) { '0' <= c <= '9' }
  predicate IsSpecial(c: char) { c in SpecialCharacters }

  /** `/[A-Z]/.test(password)` and the other three classes: some character is in the class. */
  predicate HasUpper(password: string) { exists i :: 0 <= i < |password| && IsUpper(password[i]) }
  predicate HasLower(password: string) { exists i :: 0 <= i < |password| && IsLower(password[i]) }
  predicate HasDigit(password: string) { exists i :: 0 <= i < |password| && IsDigit(password[i]) }
  predicate HasSpecial(password: string) { exists i :: 0 <= i < |password| && IsSpecial(password[i]) }

  /** What each rule asks of a password; the length is counted in characters. */
  predicate Satisfies(password: string, r: Rule) {
    match r
    case MinLength => |password| >= 8
    case Uppercase => HasUpper(password)
    case Lowercase => HasLower(password)
    case Digit => HasDigit(password)
    case Special => HasSpecial(password)
  }

  /** The rules a password breaks, in report order. */
  function Violations(password: string): seq<Rule> {
    Filter(Rules, Broken(password))
  }

  function Broken(password: string): Rule -> bool {
    (r: Rule) => !Satisfies(password, r)
  }

  function Messages(rs: seq<Rule>): (ms: seq<string>)
    ensures |ms| == |rs|
    ensures forall i :: 0 <= i < |rs| ==> ms[i] == Message(rs[i])
  {
    if rs == [] then [] else [Message(rs[0])] + Messages(rs[1..])
  }

  /** The contribution of one rule to the report: itself when broken, nothing otherwise. */
  function Step(password: string, r: Rule): seq<Rule> {
    if Satisfies(password, r) then [] else [r]
  }

  /** Checking a single rule reports it exactly when the password breaks it. */
  lemma StepIsFilter(password: string, r: Rule)
    ensures Filter([r], Broken(password)) == Step(password, r)
  {
    assert [r][1..] == [];
  }

  lemma ViolationsUnfold(password: string)
    ensures Violations(password) ==
      Step(password, MinLength) + Step(password, Uppercase) + Step(password, Lowercase)
      + Step(password, Digit) + Step(password, Special)
  {
    assert Rules == [MinLength, Uppercase, Lowercase, Digit, Special];
    FilterFive(MinLength, Uppercase, Lowercase, Digit, Special, Broken(password));
    StepIsFilter(password, MinLength);
    StepIsFilter(password, Uppercase);
    StepIsFilter(password, Lowercase);
    StepIsFilter(password, Digit);
    StepIsFilter(password, Special);
  }

  lemma MessagesAppend(a: seq<Rule>, b: seq<Rule>)
    ensures Messages(a + b) == Messages(a) + Messages(b)
  {
    assert |Messages(a + b)| == |Messages(a) + Messages(b)|;
    forall i | 0 <= i < |a| + |b| ensures Messages(a + b)[i] == (Messages(a) + Messages(b))[i] {
      if i < |a| { assert (a + b)[i] == a[i]; } else { assert (a + b)[i] == b[i - |a|]; }
    }
  }

  /** One `if (!test) errors.push(message)` of the validator. */
  method CheckRule(password: string, r: Rule, errors: seq<string>) returns (errors': seq<string>)
    ensures errors' == errors + Messages(Step(password, r))
  {
    errors' := errors;
    var ok := match r
      case MinLength => !(|password| < 8)
      case Uppercase => HasUpper(password)
      case Lowercase => HasLower(password)
      case Digit => HasDigit(password)
      case Special => HasSpecial(password);
    if !ok {
      errors' := errors' + [Message(r)];
    }
  }

  /**
   * `validatePassword`: one message per broken rule, pushed in the order length, uppercase,
   * lowercase, digit, special; the password is valid when no message was pushed.
   */
  method ValidatePassword(password: string) returns (isValid: bool, errors: seq<string>)
    ensures errors == Messages(Violations(password))
    ensures isValid <==> errors == []
  {
    ghost var s1, s2, s3, s4, s5 := Step(password, MinLength), Step(password, Uppercase),
      Step(password, Lowercase), Step(password, Digit), Step(password, Special);
    errors := [];
    errors := CheckRule(password, MinLength, errors);
    assert errors == Messages(s1);
    errors := CheckRule(password, Uppercase, errors);
    MessagesAppend(s1, s2);
    assert errors == Messages(s1 + s2);
    errors := CheckRule(password, Lowercase, errors);
    MessagesAppend(s1 + s2, s3);
    assert errors == Messages(s1 + s2 + s3);
    errors := CheckRule(password, Digit, errors);
    MessagesAppend(s1 + s2 + s3, s4);
    assert errors == Messages(s1 + s2 + s3 + s4);
    errors := CheckRule(password, Special, errors);
    MessagesAppend(s1 + s2 + s3 + s4, s5);
    assert errors == Messages(s1 + s2 + s3 + s4 + s5);
    isValid := |errors| == 0;
    ViolationsUnfold(password);
  }

  lemma MessagesDistinct(r: Rule, q: Rule)
    requires r != q
    ensures Message(r) != Message(q)
  {
    match r
    case MinLength => assert Message(r)[14] == 'b';
    case Uppercase => assert Message(r)[35] == 'u';
    case Lowercase => assert Message(r)[35] == 'l';
    case Digit => assert Message(r)[35] == 'n';
    case Special => assert Message(r)[35] == 's';
  }

  lemma RuleListed(r: Rule)
    ensures r in Rules
  {
    match r
    case MinLength => assert Rules[0] == r;
    case Uppercase => assert Rules[1] == r;
    case Lowercase => assert Rules[2] == r;
    case Digit => assert Rules[3] == r;
    case Special => assert Rules[4] == r;
  }

  /** A rule's message is reported exactly when the password breaks that rule. */
  lemma ReportedIffBroken(password: string, r: Rule)
    ensures Message(r) in Messages(Violations(password)) <==> !Satisfies(password, r)
  {
    var v := Violations(password);
    var ms := Messages(v);
    FilterMembership(Rules, Broken(password), r);
    RuleListed(r);
    if Message(r) in ms {
      var k :| 0 <= k < |ms| && ms[k] == Message(r);
      if v[k] != r {
        MessagesDistinct(v[k], r);
      }
      assert v[k] in v;
    }
    if !Satisfies(password, r) {
      assert r in v;
      var k :| 0 <= k < |v| && v[k] == r;
      assert ms[k] == Message(r);
    }
  }

  /** The messages come in the fixed order of the rules, so there are at most five. */
  lemma ReportOrdered(password: string)
    ensures |Messages(Violations(password))| <= 5
    ensures forall i, j :: 0 <= i < j < |Violations(password)| ==> Rank(Violations(password)[i]) < Rank(Violations(password)[j])
  {
    assert forall i, j :: 0 <= i < j < |Rules| ==> Rank(Rules[i]) < Rank(Rules[j]);
    FilterIncreasing(Rules, Broken(password), Rank);
  }

  /** `isValid`: no message exactly when every rule holds. */
  lemma ValidIffAllRules(password: string)
    ensures Violations(password) == [] <==> forall r :: Satisfies(password, r)
  {
    var v := Violations(password);
    if v != [] {
      FilterMembership(Rules, Broken(password), v[0]);
      assert v[0] in v;
    } else {
      forall r ensures Satisfies(password, r) {
        FilterMembership(Rules, Broken(password), r);
        RuleListed(r);
      }
    }
  }

  /** A password under 8 characters always gets the length message, and it comes first. */
  lemma ShortPasswordFirstMessage(password: string)
    requires |password| < 8
    ensures Messages(Violations(password))[0] == Message(MinLength)
  {
    ViolationsUnfold(password);
  }

  /** Eight characters or more with one letter of each case, a digit and a special character pass. */
  lemma EveryClassIsValid(password: string, u: nat, l: nat, d: nat, s: nat)
    requires |password| >= 8
    requires u < |password| && IsUpper(password[u])
    requires l < |password| && IsLower(password[l])
    requires d < |password| && IsDigit(password[d])
    requires s < |password| && IsSpecial(password[s])
    ensures Violations(password) == []
  {
    ViolationsUnfold(password);
  }

  /** "abcdefg!" is long enough and has a special character, but no capital and no digit. */
  lemma ExamplePassword()
    ensures Messages(Violations("abcdefg!")) == [Message(Uppercase), Message(Digit)]
  {
    var pw := "abcdefg!";
    ExampleClasses();
    ViolationsUnfold(pw);
    assert Step(pw, MinLength) == [] && Step(pw, Uppercase) == [Uppercase] && Step(pw, Lowercase) == [];
    assert Step(pw, Digit) == [Digit] && Step(pw, Special) == [];
    assert Violations(pw) == [Uppercase, Digit];
    MessagesPair(Uppercase, Digit);
  }

  lemma MessagesPair(a: Rule, b: Rule)
    ensures Messages([a, b]) == [Message(a), Message(b)]
  {
    assert [a, b][1..] == [b];
    assert [b][1..] == [];
  }

  lemma ExampleClasses()
    ensures var pw := "abcdefg!";
      Satisfies(pw, MinLength) && !Satisfies(pw, Uppercase) && Satisfies(pw, Lowercase)
      && !Satisfies(pw, Digit) && Satisfies(pw, Special)
  {
    var pw := "abcdefg!";
    assert IsLower(pw[0]) && IsSpecial(pw[7]);
    forall i | 0 <= i < |pw| ensures !IsUpper(pw[i]) && !IsDigit(pw[i]) {
    }
  }

  // ---------------------------------------------------------------------------------------------
  // Token expiry

  /** What `jwtDecode` makes of a token: it throws, or yields claims whose `exp` may be absent. */
  datatype DecodedToken = Undecodable | Claims(exp: Option<int>)

  /**
   * `isTokenExpired`, with the clock reading `now` in milliseconds: a token that does not
   * decode counts as expired; `exp` is in seconds. A missing `exp` makes the comparison with
   * NaN false, so such a token never expires.
   */
  function IsTokenExpired(token: DecodedToken, now: int): (expired: bool)
    ensures token.Undecodable? ==> expired
    ensures token.Claims? && token.exp.None? ==> !expired
  {
    match token
    case Undecodable => true
    case Claims(exp) => exp.Some? && now >= exp.value * 1000
  }

  /** The test compares whole seconds: expired exactly once `exp` seconds have fully elapsed. */
  lemma ExpiredInSeconds(exp: int, now: int)
    ensures IsTokenExpired(Claims(Some(exp)), now) <==> now / 1000 >= exp
  {
    if now / 1000 >= exp {
      assert now >= (now / 1000) * 1000;
    } else {
      assert now < (now / 1000) * 1000 + 1000;
    }
  }

  /** Expiry is permanent: a token expired now stays expired at every later time. */
  lemma ExpiryPermanent(token: DecodedToken, now: int, later: int)
    requires now <= later && IsTokenExpired(token, now)
    ensures IsTokenExpired(token, later)
  {
  }

  // ---------------------------------------------------------------------------------------------
  // Hex encoding

  newtype byte = x: int | 0 <= x < 256

  const HexDigits: string := "0123456789abcdef"

  /** `n.toString(16)` for a byte: one digit below 16, two from there on. */
  function ByteToString16(b: byte): (r: string)
    ensures 1 <= |r| <= 2
  {
    if b < 16 then [HexDigits[b]] else [HexDigits[b / 16], HexDigits[b % 16]]
  }

  /** `s.padStart(n, c)` */
  function PadStart(s: string, n: nat, c: char): (r: string)
    ensures |r| == if |s| < n then n else |s|
  {
    seq(if |s| < n then n - |s| else 0, _ => c) + s
  }

  /** `byte.toString(16).padStart(2, '0')` */
  function HexByte(b: byte): (r: string) {
    PadStart(ByteToString16(b), 2, '0')
  }

  /** Every byte becomes its two hex digits, high then low, in lower case. */
  lemma HexByteDigits(b: byte)
    ensures HexByte(b) == [HexDigits[b / 16], HexDigits[b % 16]]
  {
  }

  /** `Array.from(bytes, hexByte).join('')` */
  function ToHex(bytes: seq<byte>): (r: string)
    ensures |r| == 2 * |bytes|
  {
    if bytes == [] then "" else HexByte(bytes[0]) + ToHex(bytes[1..])
  }

  /** The inverse of the encoding, for checking it loses nothing. */
  function DigitValue(c: char): Option<byte> {
    if '0' <= c <= '9' then Some((c as int - '0' as int) as byte)
    else if 'a' <= c <= 'f' then Some((c as int - 'a' as int + 10) as byte)
    else None
  }

  function FromHex(s: string): Option<seq<byte>>
    decreases |s|
  {
    if s == [] then Some([])
    else if |s| == 1 then None
    else
      match (DigitValue(s[0]), DigitValue(s[1]), FromHex(s[2..]))
      case (Some(hi), Some(lo), Some(rest)) => Some([(hi as int * 16 + lo as int) as byte] + rest)
      case _ => None
  }

  lemma DigitRoundTrip(d: int)
    requires 0 <= d < 16
    ensures DigitValue(HexDigits[d]) == Some(d as byte)
  {
  }

  /** Two digits in front of decodable text decode to their byte in front of the rest. */
  lemma HexByteDecodes(b: byte, rest: string, tail: seq<byte>)
    requires FromHex(rest) == Some(tail)
    ensures FromHex(HexByte(b) + rest) == Some([b] + tail)
  {
    HexByteDigits(b);
    DigitRoundTrip(b as int / 16);
    DigitRoundTrip(b as int % 16);
    var s := HexByte(b) + rest;
    assert |s| >= 2 && s[0] == HexDigits[b / 16] && s[1] == HexDigits[b % 16];
    assert s[2..] == rest;
    var hi, lo := (b as int / 16) as byte, (b as int % 16) as byte;
    assert DigitValue(s[0]) == Some(hi) && DigitValue(s[1]) == Some(lo);
    assert (hi as int * 16 + lo as int) as byte == b;
  }

  /** Decoding the hex text gives back the bytes. */
  lemma {:induction false} HexRoundTrip(bytes: seq<byte>)
    ensures FromHex(ToHex(bytes)) == Some(bytes)
  {
    if bytes != [] {
      HexRoundTrip(bytes[1..]);
      HexByteDecodes(bytes[0], ToHex(bytes[1..]), bytes[1..]);
      assert [bytes[0]] + bytes[1..] == bytes;
    }
  }

  /** Every character of the text is a lower-case hex digit. */
  lemma {:induction false} HexAlphabet(bytes: seq<byte>)
    ensures forall c :: c in ToHex(bytes) ==> c in HexDigits
  {
    if bytes != [] {
      HexByteDigits(bytes[0]);
      HexAlphabet(bytes[1..]);
    }
  }

  /** `generateSecureToken`, with the 32 bytes `crypto.getRandomValues` filled in as the parameter. */
  function SecureToken(random: seq<byte>): (token: string)
    requires |random| == 32
    ensures |token| == 64
    ensures FromHex(token) == Some(random)
    ensures forall c :: c in token ==> c in HexDigits
  {
    HexRoundTrip(random);
    HexAlphabet(random);
    ToHex(random)
  }
}
