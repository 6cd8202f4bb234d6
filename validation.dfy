/** The field validator of the form builder (src/components/FormBuilder.tsx:9-15
    and 35-66): three regular-expression tests over the label text, the
    rule chosen by field type, and the fixed error message of each rule. */
module Validation {
  import opened Wrappers
  import opened Form

  /** What the validator takes from the JavaScript engine, which the model
      does not interpret: whether parseFloat(s) >= 5 holds, whether
      Number(s) is NaN, and whether Date.parse(s) is NaN. */
  datatype JsRuntime = JsRuntime(
    parseFloatAtLeastFive: string -> bool,
    numberIsNaN: string -> bool,
    dateParseIsNaN: string -> bool)

  const NumberMessage := "Value must be at least 5."
  const CapitalMessage := "String must start with a capital letter."
  const SpecialCharsMessage := "String must not have special characters."
  const DateMessage := "Please enter a valid date."
  const EmailMessage := "Please enter a valid email address."

  // Character classes of the three regular expressions.

  predicate IsUpper(c: char) { 'A' <= c <= 'Z' }
  predicate IsLetter(c: char) { 'a' <= c <= 'z' || 'A' <= c <= 'Z' }
  predicate IsDigit(c: char) { '0' <= c <= '9' }
  /** [a-zA-Z0-9 ] */
  predicate IsPlainChar(c: char) { IsLetter(c) || IsDigit(c) || c == ' ' }
  /** [a-zA-Z0-9._-] */
  predicate IsLocalChar(c: char) { IsLetter(c) || IsDigit(c) || c == '.' || c == '_' || c == '-' }
  /** [a-zA-Z0-9.-] */
  predicate IsDomainChar(c: char) { IsLetter(c) || IsDigit(c) || c == '.' || c == '-' }

  predicate AllLocalChars(s: string) { forall i | 0 <= i < |s| :: IsLocalChar(s[i]) }
  predicate AllDomainChars(s: string) { forall i | 0 <= i < |s| :: IsDomainChar(s[i]) }
  predicate AllLetters(s: string) { forall i | 0 <= i < |s| :: IsLetter(s[i]) }

  /** /^[A-Z]/ */
  predicate StartsWithCapitalLetter(s: string)
  {
    |s| > 0 && IsUpper(s[0])
  }

  /** /^[a-zA-Z0-9 ]*$/ */
  predicate HasNoSpecialChars(s: string)
  {
    forall i | 0 <= i < |s| :: IsPlainChar(s[i])
  }

  /** The parts /^[a-zA-Z0-9._-]+@[a-zA-Z0-9.-]+\.[a-zA-Z]{2,6}$/ asks for. */
  predicate EmailParts(local: string, domain: string, tld: string)
  {
    && |local| > 0 && AllLocalChars(local)
    && |domain| > 0 && AllDomainChars(domain)
    && 2 <= |tld| <= 6 && AllLetters(tld)
  }

  /** What it means for the email regular expression to match s: s splits
      into the three parts around an '@' and a '.'. */
  ghost predicate IsEmailShaped(s: string)
  {
    exists local, domain, tld :: EmailParts(local, domain, tld) && s == local + "@" + domain + "." + tld
  }

  /** The index of the first c in s. */
  function IndexOf(s: string, c: char): (r: Option<nat>)
    ensures r.Some? ==> r.value < |s| && s[r.value] == c && c !in s[..r.value]
    ensures r.None? ==> c !in s
  {
    if s == [] then None
    else if s[0] == c then Some(0)
    else match IndexOf(s[1..], c)
      case None => None
      case Some(i) =>
        assert s[..i + 1] == [s[0]] + s[1..][..i];
        Some(i + 1)
  }

  /** The index of the last c in s. */
  function LastIndexOf(s: string, c: char): (r: Option<nat>)
    ensures r.Some? ==> r.value < |s| && s[r.value] == c && c !in s[r.value + 1..]
    ensures r.None? ==> c !in s
  {
    if s == [] then None
    else if s[|s| - 1] == c then Some(|s| - 1)
    else
      var r := LastIndexOf(s[..|s| - 1], c);
      assert s == s[..|s| - 1] + [s[|s| - 1]];
      assert r.Some? ==> s[r.value + 1..] == s[..|s| - 1][r.value + 1..] + [s[|s| - 1]];
      r
  }

  /** The test of the email regular expression. No local or domain character
      is '@' and no top-level character is '.', so the '@' must be the first
      one in s and the '.' the last one after it. */
  predicate MatchesEmailPattern(s: string)
  {
    match IndexOf(s, '@')
    case None => false
    case Some(at) =>
      var rest := s[at + 1..];
      match LastIndexOf(rest, '.')
      case None => false
      case Some(dot) =>
        EmailParts(s[..at], rest[..dot], rest[dot + 1..])
  }

  /** An occurrence of c with no c before it is the one IndexOf finds. */
  lemma IndexOfUnique(s: string, c: char, k: nat)
    requires k < |s| && s[k] == c && c !in s[..k]
    ensures IndexOf(s, c) == Some(k)
  {
    assert s[k] in s;
  }

  /** An occurrence of c with no c after it is the one LastIndexOf finds. */
  lemma LastIndexOfUnique(s: string, c: char, k: nat)
    requires k < |s| && s[k] == c && c !in s[k + 1..]
    ensures LastIndexOf(s, c) == Some(k)
  {
    assert s[k] in s;
  }

  /** The first '@' of local + "@" + rest is the one after local. */
  lemma FirstAt(local: string, rest: string)
    requires AllLocalChars(local)
    ensures IndexOf(local + "@" + rest, '@') == Some(|local|)
  {
    var s := local + "@" + rest;
    assert s[..|local|] == local;
    assert '@' !in local;
    IndexOfUnique(s, '@', |local|);
  }

  /** The last '.' of domain + "." + tld is the one after domain. */
  lemma LastDot(domain: string, tld: string)
    requires AllLetters(tld)
    ensures LastIndexOf(domain + "." + tld, '.') == Some(|domain|)
  {
    var rest := domain + "." + tld;
    assert rest[|domain| + 1..] == tld;
    assert '.' !in tld;
    LastIndexOfUnique(rest, '.', |domain|);
  }

  /** Cutting s at an '@' and at a '.' after it gives back s. */
  lemma SplitAround(s: string, at: nat, dot: nat)
    requires at < |s| && s[at] == '@'
    requires dot < |s[at + 1..]| && s[at + 1..][dot] == '.'
    ensures s == s[..at] + "@" + s[at + 1..][..dot] + "." + s[at + 1..][dot + 1..]
  {
    var rest := s[at + 1..];
    assert rest == rest[..dot] + [rest[dot]] + rest[dot + 1..];
    assert s == s[..at] + [s[at]] + rest;
  }

  /** With the '@' and the '.' found, the email test is the test of the three parts. */
  lemma UnfoldMatches(s: string, at: nat, dot: nat)
    requires IndexOf(s, '@') == Some(at)
    requires LastIndexOf(s[at + 1..], '.') == Some(dot)
    ensures MatchesEmailPattern(s) == EmailParts(s[..at], s[at + 1..][..dot], s[at + 1..][dot + 1..])
  {
  }

  /** A string cut into valid parts at an '@' and a '.' after it is email-shaped. */
  lemma ShapedAt(s: string, at: nat, dot: nat)
    requires at < |s| && s[at] == '@'
    requires dot < |s[at + 1..]| && s[at + 1..][dot] == '.'
    requires EmailParts(s[..at], s[at + 1..][..dot], s[at + 1..][dot + 1..])
    ensures IsEmailShaped(s)
  {
    var local, domain, tld := s[..at], s[at + 1..][..dot], s[at + 1..][dot + 1..];
    SplitAround(s, at, dot);
    assert EmailParts(local, domain, tld) && s == local + "@" + domain + "." + tld;
  }

  lemma MatchesEmailPatternSound(s: string)
    requires MatchesEmailPattern(s)
    ensures IsEmailShaped(s)
  {
    var at := IndexOf(s, '@').value;
    var dot := LastIndexOf(s[at + 1..], '.').value;
    UnfoldMatches(s, at, dot);
    ShapedAt(s, at, dot);
  }

  /** Cutting a + [c] + b around the c gives back a and b. */
  lemma CutAround(a: string, c: char, b: string)
    ensures (a + [c] + b)[..|a|] == a && (a + [c] + b)[|a| + 1..] == b
  {
  }

  lemma MatchesEmailPatternComplete(local: string, domain: string, tld: string)
    requires EmailParts(local, domain, tld)
    ensures MatchesEmailPattern(local + "@" + domain + "." + tld)
  {
    var rest := domain + "." + tld;
    var s := local + "@" + domain + "." + tld;
    assert s == local + "@" + rest;
    FirstAt(local, rest);
    CutAround(local, '@', rest);
    LastDot(domain, tld);
    CutAround(domain, '.', tld);
    UnfoldMatches(s, |local|, |domain|);
  }

  /** The decision procedure accepts exactly the strings the regular
      expression matches. */
  lemma MatchesEmailPatternCorrect(s: string)
    ensures MatchesEmailPattern(s) <==> IsEmailShaped(s)
  {
    if MatchesEmailPattern(s) {
      MatchesEmailPatternSound(s);
    }
    if IsEmailShaped(s) {
      var local, domain, tld :| EmailParts(local, domain, tld) && s == local + "@" + domain + "." + tld;
      MatchesEmailPatternComplete(local, domain, tld);
    }
  }

  /** ruleMap[type]: the rule's verdict for the types that have an entry,
      None for the rest. */
  function Rule(js: JsRuntime, t: FieldType, value: string): (r: Option<bool>)
    ensures r.None? <==> (t.Boolean? || t.Other?)
  {
    match t
    case Number => Some(js.parseFloatAtLeastFive(value))
    case String => Some(StartsWithCapitalLetter(value) && HasNoSpecialChars(value))
    case Date => Some(!js.dateParseIsNaN(value))
    case Email => Some(MatchesEmailPattern(value))
    case _ => None
  }

  /** validateField: None when the rule passes, and also when the switch has
      no case for the type; otherwise the type's message. A missing rule
      counts as failing (`!undefined` is true). */
  function ValidateField(js: JsRuntime, t: FieldType, value: string): (r: Option<string>)
    ensures r.Some? ==> r.value in {NumberMessage, CapitalMessage, SpecialCharsMessage, DateMessage, EmailMessage}
  {
    var passed := match Rule(js, t, value) case Some(ok) => ok case None => false;
    if passed then None
    else match t
      case Number => Some(NumberMessage)
      case String =>
        if !StartsWithCapitalLetter(value) then Some(CapitalMessage)
        else if !HasNoSpecialChars(value) then Some(SpecialCharsMessage)
        else None
      case Date => Some(DateMessage)
      case Email => Some(EmailMessage)
      case _ => None
  }

  /** A String label is rejected for its first character exactly when that
      character is not in A-Z or there is none; with a capital first
      character it is rejected for special characters exactly when some
      character lies outside [A-Za-z0-9 ]; otherwise it passes. */
  lemma ValidateStringField(js: JsRuntime, s: string)
    ensures ValidateField(js, String, s) == Some(CapitalMessage) <==> (s == [] || !('A' <= s[0] <= 'Z'))
    ensures ValidateField(js, String, s) == Some(SpecialCharsMessage)
        <==> (s != [] && 'A' <= s[0] <= 'Z' && exists i | 0 <= i < |s| :: !IsPlainChar(s[i]))
    ensures ValidateField(js, String, s) == None
        <==> (s != [] && 'A' <= s[0] <= 'Z' && forall i | 0 <= i < |s| :: IsPlainChar(s[i]))
  {
  }

  /** A Number label passes exactly when parseFloat reads at least 5 from it. */
  lemma ValidateNumberField(js: JsRuntime, s: string)
    ensures ValidateField(js, Number, s) == (if js.parseFloatAtLeastFive(s) then None else Some(NumberMessage))
  {
  }

  /** A Date label passes exactly when Date.parse accepts it. */
  lemma ValidateDateField(js: JsRuntime, s: string)
    ensures ValidateField(js, Date, s) == (if js.dateParseIsNaN(s) then Some(DateMessage) else None)
  {
  }

  /** An Email label passes exactly when it has the shape local@domain.tld
      of the regular expression. */
  lemma ValidateEmailField(js: JsRuntime, s: string)
    ensures ValidateField(js, Email, s) == None <==> IsEmailShaped(s)
    ensures ValidateField(js, Email, s) != None ==> ValidateField(js, Email, s) == Some(EmailMessage)
  {
    MatchesEmailPatternCorrect(s);
  }

  /** Boolean and the types without an entry in ruleMap accept every label:
      no case of the switch matches them. */
  lemma ValidateFieldWithoutRule(js: JsRuntime, t: FieldType, s: string)
    requires t.Boolean? || t.Other?
    ensures ValidateField(js, t, s) == None
  {
  }

  /** Example String labels: "bob" lacks a capital, "Bob!" has a special
      character, "Bob 2" passes and the empty label lacks a capital. */
  lemma StringExamples(js: JsRuntime)
    ensures ValidateField(js, String, "bob") == Some(CapitalMessage)
    ensures ValidateField(js, String, "Bob!") == Some(SpecialCharsMessage)
    ensures ValidateField(js, String, "Bob 2") == None
    ensures ValidateField(js, String, "") == Some(CapitalMessage)
  {
    assert "Bob!"[3] == '!';
    assert !IsPlainChar("Bob!"[3]);
  }

  /** Example Email label "x@y.com": it passes. */
  lemma EmailExampleAccepted(js: JsRuntime)
    ensures ValidateField(js, Email, "x@y.com") == None
  {
    assert EmailParts("x", "y", "com");
    assert "x@y.com" == "x" + "@" + "y" + "." + "com";
    assert IsEmailShaped("x@y.com");
    ValidateEmailField(js, "x@y.com");
  }

  /** Example Email label "x@y.c": its top level has one letter, so it is refused. */
  lemma EmailExampleRejected(js: JsRuntime)
    ensures ValidateField(js, Email, "x@y.c") == Some(EmailMessage)
  {
    var s := "x@y.c";
    IndexOfUnique(s, '@', 1);
    assert s[2..] == "y.c";
    LastIndexOfUnique("y.c", '.', 1);
    assert "y.c"[2..] == "c";
  }
}
