/** The two email checks of registration: the mandatory-fields stage trims, the format stage does not. */
module EmailFormat {
  predicate Letter(c: char) {
    'A' <= c <= 'Z' || 'a' <= c <= 'z'
  }

  predicate LocalChar(c: char) {
    Letter(c) || '0' <= c <= '9' || c in "._%+-"
  }

  predicate DomainChar(c: char) {
    Letter(c) || '0' <= c <= '9' || c == '.' || c == '-'
  }

  /** What both `trim` and the \s class treat as white space (WhiteSpace and LineTerminator of ECMA-262, section 12). */
  predicate Space(c: char) {
    c in "\t\n\r \U{000B}\U{000C}\U{00A0}\U{1680}\U{2028}\U{2029}\U{202F}\U{205F}\U{3000}\U{FEFF}"
    || '\U{2000}' <= c <= '\U{200A}'
  }

  predicate All(s: string, p: char -> bool) {
    forall c | c in s :: p(c)
  }

  /** local + '@' + domain + '.' + top level: one way to read the text as the pattern asks. */
  predicate SplitsAt(s: string, at: nat, dot: nat) {
    && 0 < at && at + 1 < dot && dot + 2 < |s|
    && All(s[..at], LocalChar) && s[at] == '@'
    && All(s[at + 1..dot], DomainChar) && s[dot] == '.'
    && All(s[dot + 1..], Letter)
  }

  predicate Matches(s: string) {
    exists at: nat, dot: nat | at < |s| && dot < |s| :: SplitsAt(s, at, dot)
  }

  function TrimStart(s: string): string {
    if s != [] && Space(s[0]) then TrimStart(s[1..]) else s
  }

  function TrimEnd(s: string): string {
    if s != [] && Space(s[|s| - 1]) then TrimEnd(s[..|s| - 1]) else s
  }

  function Trim(s: string): string {
    TrimEnd(TrimStart(s))
  }

  /** Outcome of `validateFormat`: false for the empty text, true, or one of three thrown codes. */
  datatype Verdict = Empty | Accepted | MissingAtSymbol | InvalidCharacter | InvalidEmailFormat

  predicate Allowed(c: char) {
    LocalChar(c) || c == '@'
  }

  function ValidateFormat(email: string): Verdict {
    if email == "" then Empty
    else if Matches(email) then Accepted
    else if '@' !in email then MissingAtSymbol
    else if (exists c | c in email :: Space(c)) || (exists c | c in email :: !Allowed(c)) then InvalidCharacter
    else InvalidEmailFormat
  }

  datatype Request = Request(username: string, emailAddress: string, password: string, passwordConfirmation: string)

  datatype FieldError =
    | UsernameRequired | EmailRequired | PasswordRequired | ConfirmationRequired | BadEmail | PasswordMismatch

  /** The order in which errors are reported. */
  function Order(e: FieldError): nat {
    match e
    case UsernameRequired => 0
    case EmailRequired => 1
    case PasswordRequired => 2
    case ConfirmationRequired => 3
    case BadEmail => 4
    case PasswordMismatch => 5
  }

  /** A field is missing when nothing is left of it after trimming. */
  predicate Missing(r: Request, e: FieldError) {
    match e
    case UsernameRequired => Trim(r.username) == ""
    case EmailRequired => Trim(r.emailAddress) == ""
    case PasswordRequired => Trim(r.password) == ""
    case ConfirmationRequired => Trim(r.passwordConfirmation) == ""
    case _ => false
  }

  predicate AnyMissing(r: Request) {
    Missing(r, UsernameRequired) || Missing(r, EmailRequired) || Missing(r, PasswordRequired)
    || Missing(r, ConfirmationRequired)
  }

  /**
   * The mandatory-fields stage. Every missing field is reported, and only when none is missing are the format and
   * the two passwords looked at; each error is reported once, in a fixed order.
   */
  method Validate(r: Request) returns (isValid: bool, errors: seq<FieldError>)
    ensures isValid <==> errors == []
    ensures forall e :: e in errors <==>
              if AnyMissing(r) then Missing(r, e)
              else (e == BadEmail && !Matches(Trim(r.emailAddress)))
                   || (e == PasswordMismatch && Trim(r.password) != Trim(r.passwordConfirmation))
    ensures forall i, j | 0 <= i < j < |errors| :: Order(errors[i]) < Order(errors[j])
  {
    errors := [];
    var username, emailAddress := Trim(r.username), Trim(r.emailAddress);
    var password, passwordConfirmation := Trim(r.password), Trim(r.passwordConfirmation);
    if |username| == 0 {
      errors := errors + [UsernameRequired];
    }
    if |emailAddress| == 0 {
      errors := errors + [EmailRequired];
    }
    if |password| == 0 {
      errors := errors + [PasswordRequired];
    }
    if |passwordConfirmation| == 0 {
      errors := errors + [ConfirmationRequired];
    }
    if |errors| == 0 {
      if !Matches(emailAddress) {
        errors := errors + [BadEmail];
      }
      if password != passwordConfirmation {
        errors := errors + [PasswordMismatch];
      }
    }
    isValid := |errors| == 0;
  }

  /** Trimming keeps a middle part and drops only white space around it. */
  lemma {:induction false} TrimStartDrops(s: string)
    ensures exists k: nat :: k <= |s| && TrimStart(s) == s[k..] && (forall i | 0 <= i < k :: Space(s[i]))
    ensures TrimStart(s) == [] || !Space(TrimStart(s)[0])
  {
    if s != [] && Space(s[0]) {
      TrimStartDrops(s[1..]);
      var k: nat :| k <= |s[1..]| && TrimStart(s[1..]) == s[1..][k..] && forall i | 0 <= i < k :: Space(s[1..][i]);
      assert s[1..][k..] == s[k + 1..];
      forall i | 0 <= i < k + 1 ensures Space(s[i]) {
        assert i == 0 || s[i] == s[1..][i - 1];
      }
    } else {
      assert s[0..] == s;
    }
  }

  lemma {:induction false} TrimEndDrops(s: string)
    ensures exists k: nat :: k <= |s| && TrimEnd(s) == s[..k] && (forall i | k <= i < |s| :: Space(s[i]))
  {
    if s != [] && Space(s[|s| - 1]) {
      var front := s[..|s| - 1];
      TrimEndDrops(front);
      var k: nat :| k <= |front| && TrimEnd(front) == front[..k] && forall i | k <= i < |front| :: Space(front[i]);
      assert front[..k] == s[..k];
      forall i | k <= i < |s| ensures Space(s[i]) {
        assert i == |s| - 1 || s[i] == front[i];
      }
    } else {
      assert s[..|s|] == s;
    }
  }

  lemma TrimDropsSpaces(s: string)
    ensures forall c | c in Trim(s) :: c in s
    ensures Trim(s) != s ==> exists c :: c in s && Space(c)
  {
    TrimStartDrops(s);
    var a := TrimStart(s);
    TrimEndDrops(a);
    var k: nat :| k <= |s| && a == s[k..] && forall i | 0 <= i < k :: Space(s[i]);
    var l: nat :| l <= |a| && Trim(s) == a[..l] && forall i | l <= i < |a| :: Space(a[i]);
    if k > 0 {
      assert s[0] in s && Space(s[0]);
    } else if l < |a| {
      assert a[l] in s && Space(a[l]);
    } else {
      assert a == s && Trim(s) == a;
    }
  }

  lemma MatchingTextHasNoSpace(s: string)
    requires Matches(s)
    ensures '@' in s && forall c | c in s :: Allowed(c) && !Space(c)
  {
    var at: nat, dot: nat :| at < |s| && dot < |s| && SplitsAt(s, at, dot);
    forall c | c in s ensures Allowed(c) && !Space(c) {
      var i :| 0 <= i < |s| && s[i] == c;
      if i < at {
        assert c in s[..at];
      } else if at < i < dot {
        assert c in s[at + 1..dot];
      } else if dot < i {
        assert c in s[dot + 1..];
      }
    }
  }

  /**
   * When the trimming stage has accepted the address, the raw stage accepts it exactly if it had no outer white
   * space, and otherwise always throws INVALID_CHARACTER.
   */
  lemma RawStageAfterTrimmedStage(raw: string)
    requires Matches(Trim(raw))
    ensures ValidateFormat(raw) == if Trim(raw) == raw then Accepted else InvalidCharacter
  {
    TrimDropsSpaces(raw);
    MatchingTextHasNoSpace(Trim(raw));
    if Trim(raw) != raw {
      var c :| c in raw && Space(c);
      if Matches(raw) {
        MatchingTextHasNoSpace(raw);
      }
    }
  }
}
