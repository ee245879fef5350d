/**
 * The guards `signup` runs on its input before it touches the user table
 * (backend/src/controllers/auth.controller.js, lines 14-41), in their order.
 */
module SignupRules {
  import opened Wrappers
  import opened Text

  /** The disposable-mail domains signup refuses, compared after lower-casing. */
  const BlockedDomains: seq<string> := [
    "mailinator.com",
    "tempmail.com",
    "10minutemail.com",
    "guerrillamail.com",
    "getnada.com",
    "trashmail.com"
  ]

  /**
   * Reference definition: `s` matches `/^[^\s@]+@[^\s@]+\.[^\s@]+$/`,
   * i.e. it is three non-empty runs of `[^\s@]` joined by "@" and ".".
   */
  ghost predicate MatchesEmailRegex(s: string) {
    exists a, b, c :: IsWord(a) && IsWord(b) && IsWord(c) && s == a + "@" + b + "." + c
  }

  /** The domain has no whitespace or "@" and a "." that is neither its first nor its last character. */
  predicate IsDottedDomain(d: string) {
    AllWordChars(d) && exists i :: 0 < i < |d| - 1 && d[i] == '.'
  }

  /** The email test, computed by splitting at "@": exactly one "@", a local part, a dotted domain. */
  predicate IsEmailShape(s: string) {
    var parts := Split(s, '@');
    |parts| == 2 && IsWord(parts[0]) && IsDottedDomain(parts[1])
  }

  /**
   * `email.split("@")[1]`, or "" where that element does not exist: the
   * text after the first "@" up to the next "@" or the end.
   */
  function DomainOf(s: string): (d: string)
    ensures '@' !in d
    ensures '@' !in s ==> d == ""
    ensures '@' in s ==> var rest := s[IndexOf(s, '@').value + 1..];
      d <= rest && (|d| == |rest| || rest[|d|] == '@')
  {
    var parts := Split(s, '@');
    assert '@' in s ==> parts[1..] == Split(s[IndexOf(s, '@').value + 1..], '@');
    if |parts| >= 2 then parts[1] else ""
  }

  /** The split-based test accepts exactly the strings the regular expression accepts. */
  lemma EmailShapeIsRegex(s: string)
    ensures IsEmailShape(s) <==> MatchesEmailRegex(s)
  {
    if IsEmailShape(s) {
      var parts := Split(s, '@');
      JoinSplit(s, '@');
      assert Join(parts[1..], '@') == parts[1];
      assert s == parts[0] + "@" + parts[1];
      var d := parts[1];
      var i :| 0 < i < |d| - 1 && d[i] == '.';
      var b, c := d[..i], d[i + 1..];
      assert d == b + "." + c;
      assert IsWord(b) && IsWord(c);
      assert s == parts[0] + "@" + b + "." + c;
    }
    if MatchesEmailRegex(s) {
      var a, b, c :| IsWord(a) && IsWord(b) && IsWord(c) && s == a + "@" + b + "." + c;
      DomainOfRegex(s, a, b, c);
    }
  }

  /** For a string of the regular expression's shape, the domain is everything after the "@". */
  lemma DomainOfRegex(s: string, a: string, b: string, c: string)
    requires IsWord(a) && IsWord(b) && IsWord(c) && s == a + "@" + b + "." + c
    ensures Split(s, '@') == [a, b + "." + c]
    ensures DomainOf(s) == b + "." + c
    ensures IsEmailShape(s)
  {
    var k := |a|;
    var d := b + "." + c;
    assert s == a + "@" + d;
    assert s[..k] == a && s[k + 1..] == d;
    assert '@' !in a by {
      forall j | 0 <= j < |a| ensures a[j] != '@' { assert IsWordChar(a[j]); }
    }
    assert AllWordChars(d) by {
      forall j | 0 <= j < |d| ensures IsWordChar(d[j]) {
        if j < |b| { assert d[j] == b[j]; }
        else if j > |b| { assert d[j] == c[j - |b| - 1]; }
      }
    }
    assert '@' !in d by {
      forall j | 0 <= j < |d| ensures d[j] != '@' { assert IsWordChar(d[j]); }
    }
    SplitAtOnly(s, '@', k);
    assert d[|b|] == '.';
  }

  /** Why signup refuses its input; more than one issue can give the same reply text. */
  datatype SignupIssue = FieldsMissing | BadEmailFormat | DisposableDomain | ForbiddenWord

  /** A request field is missing when it is falsy; strings stand in for the body's fields, "" for absent. */
  predicate Present(field: string) {
    field != ""
  }

  /**
   * The validation chain: the first failing check decides the issue, and
   * `None` means every check passed.
   */
  function CheckSignup(fullName: string, email: string, password: string): (r: Option<SignupIssue>)
    ensures r == Some(FieldsMissing) <==> !Present(fullName) || !Present(email) || !Present(password)
    ensures r == Some(BadEmailFormat) <==>
      Present(fullName) && Present(email) && Present(password) && !MatchesEmailRegex(email)
    ensures r == Some(DisposableDomain) <==>
      Present(fullName) && Present(email) && Present(password) && MatchesEmailRegex(email)
      && Lower(DomainOf(email)) in BlockedDomains
    ensures r == Some(ForbiddenWord) <==>
      Present(fullName) && Present(email) && Present(password) && MatchesEmailRegex(email)
      && Lower(DomainOf(email)) !in BlockedDomains && Contains(Lower(email), "email")
    ensures r == None <==>
      Present(fullName) && Present(email) && Present(password) && MatchesEmailRegex(email)
      && Lower(DomainOf(email)) !in BlockedDomains && !Contains(Lower(email), "email")
  {
    EmailShapeIsRegex(email);
    if !Present(fullName) || !Present(email) || !Present(password) then Some(FieldsMissing)
    else if !IsEmailShape(email) then Some(BadEmailFormat)
    else if Lower(DomainOf(email)) in BlockedDomains then Some(DisposableDomain)
    else if Contains(Lower(email), "email") then Some(ForbiddenWord)
    else None
  }

  /** An address whose domain has no "." is refused as malformed, whatever else holds. */
  lemma UndottedDomainRefused(fullName: string, password: string, local: string, host: string)
    requires Present(fullName) && Present(password)
    requires IsWord(local) && AllWordChars(host) && '.' !in host
    ensures CheckSignup(fullName, local + "@" + host, password) == Some(BadEmailFormat)
  {
    var s := local + "@" + host;
    var k := |local|;
    assert s[..k] == local && s[k + 1..] == host;
    assert '@' !in local by {
      forall j | 0 <= j < |local| ensures local[j] != '@' { assert IsWordChar(local[j]); }
    }
    assert '@' !in host by {
      forall j | 0 <= j < |host| ensures host[j] != '@' { assert IsWordChar(host[j]); }
    }
    SplitAtOnly(s, '@', k);
    assert !IsDottedDomain(host);
    EmailShapeIsRegex(s);
  }

  /** A well-formed address on a blocklisted domain, in any mix of ASCII case, is refused as disposable. */
  lemma BlockedDomainRefused(fullName: string, password: string, local: string, host: string, tld: string)
    requires Present(fullName) && Present(password)
    requires IsWord(local) && IsWord(host) && IsWord(tld)
    requires Lower(host + "." + tld) in BlockedDomains
    ensures CheckSignup(fullName, local + "@" + host + "." + tld, password) == Some(DisposableDomain)
  {
    DomainOfRegex(local + "@" + host + "." + tld, local, host, tld);
  }

  /** A mixed-case address on the blocklist is refused as disposable. */
  lemma MixedCaseMailinatorIsBlocked()
    ensures CheckSignup("Ann", "ann@Mailinator.COM", "pw") == Some(DisposableDomain)
  {
    assert "Mailinator" + "." + "COM" == "Mailinator.COM";
    assert Lower("Mailinator.COM") == "mailinator.com";
    assert IsWord("ann") && IsWord("Mailinator") && IsWord("COM");
    assert "ann" + "@" + "Mailinator" + "." + "COM" == "ann@Mailinator.COM";
    BlockedDomainRefused("Ann", "pw", "ann", "Mailinator", "COM");
  }

  /** A well-formed address off the blocklist is refused exactly when it contains "email" in any case. */
  lemma ForbiddenWordDecides(fullName: string, password: string, local: string, host: string, tld: string)
    requires Present(fullName) && Present(password)
    requires IsWord(local) && IsWord(host) && IsWord(tld)
    requires Lower(host + "." + tld) !in BlockedDomains
    ensures var email := local + "@" + host + "." + tld;
      && (Contains(Lower(email), "email") ==> CheckSignup(fullName, email, password) == Some(ForbiddenWord))
      && (!Contains(Lower(email), "email") ==> CheckSignup(fullName, email, password) == None)
  {
    DomainOfRegex(local + "@" + host + "." + tld, local, host, tld);
  }
}
