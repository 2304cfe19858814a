/** E-mail address validation and automatic detection in Colab.

    Validity is a blacklist test followed by the regular expression
    `^[a-zA-Z0-9._%+-]+@[a-zA-Z0-9.-]+\.[a-zA-Z]{2,}$` applied with
    `re.match`. The sources of an address (saved storage, the OAuth2 ID
    token, the `gcloud` command) are foreign calls; their results are
    parameters here. */
module Email {
  import opened Common

  /** A Python value passed where an e-mail address is expected. */
  datatype EmailValue =
    | NoneValue   // Python None
    | NotText     // any other non-string value
    | Text(s: string)

  const InvalidEmails: seq<string> := ["default", "none", "null", "undefined", ""]

  // ---------------------------------------------------------------------------
  // The regular expression

  predicate AsciiLetter(c: char) {
    ('a' <= c <= 'z') || ('A' <= c <= 'Z')
  }

  predicate AsciiDigit(c: char) {
    '0' <= c <= '9'
  }

  /** `[a-zA-Z0-9._%+-]` */
  predicate LocalChar(c: char) {
    AsciiLetter(c) || AsciiDigit(c) || c == '.' || c == '_' || c == '%' || c == '+' || c == '-'
  }

  /** `[a-zA-Z0-9.-]` */
  predicate DomainChar(c: char) {
    AsciiLetter(c) || AsciiDigit(c) || c == '.' || c == '-'
  }

  /** `t` is `local + "@" + domain + "." + tld` with the `@` at `at` and the
      final dot at `dot`, each part matching its character class and
      repetition. */
  predicate SplitsAt(t: string, at: int, dot: int) {
    && 0 < at < dot < |t| - 2
    && at + 1 < dot
    && t[at] == '@' && t[dot] == '.'
    && (forall k | 0 <= k < at :: LocalChar(t[k]))
    && (forall k | at < k < dot :: DomainChar(t[k]))
    && (forall k | dot < k < |t| :: AsciiLetter(t[k]))
  }

  /** The pattern without its anchors matches all of `t`. */
  ghost predicate BodyMatches(t: string) {
    exists at, dot :: SplitsAt(t, at, dot)
  }

  /** `re.match(pattern, s)`: the match starts at 0, and `$` matches at the
      end of the string or just before a newline that ends it. */
  ghost predicate PatternMatches(s: string) {
    BodyMatches(s) || (|s| > 0 && s[|s| - 1] == '\n' && BodyMatches(s[..|s| - 1]))
  }

  function IndexOf(t: string, c: char): (r: Option<nat>)
    ensures r.Some? ==> r.value < |t| && t[r.value] == c && forall k :: 0 <= k < r.value ==> t[k] != c
    ensures r.None? ==> forall k :: 0 <= k < |t| ==> t[k] != c
  {
    FirstWhere(t, x => x == c)
  }

  function LastIndexOf(t: string, c: char): (r: Option<nat>)
    ensures r.Some? ==> r.value < |t| && t[r.value] == c && forall k :: r.value < k < |t| ==> t[k] != c
    ensures r.None? ==> forall k :: 0 <= k < |t| ==> t[k] != c
  {
    if t == [] then None
    else if t[|t| - 1] == c then Some(|t| - 1)
    else LastIndexOf(t[..|t| - 1], c)
  }

  /** The matcher: the `@` must be the first one and the dot the last one. */
  predicate BodyMatchesAt(t: string) {
    match (IndexOf(t, '@'), LastIndexOf(t, '.'))
    case (Some(at), Some(dot)) => SplitsAt(t, at, dot)
    case _ => false
  }

  /** The positions of any split are forced, so trying one is enough. */
  lemma BodyMatchesAtCorrect(t: string)
    ensures BodyMatchesAt(t) <==> BodyMatches(t)
  {
    if BodyMatches(t) {
      var at, dot :| SplitsAt(t, at, dot);
      assert IndexOf(t, '@') == Some(at);
      assert LastIndexOf(t, '.') == Some(dot);
    }
  }

  /** `re.match(pattern, s) is not None`, as computed. */
  predicate RegexAccepts(s: string) {
    BodyMatchesAt(s) || (|s| > 0 && s[|s| - 1] == '\n' && BodyMatchesAt(s[..|s| - 1]))
  }

  lemma RegexAcceptsCorrect(s: string)
    ensures RegexAccepts(s) <==> PatternMatches(s)
  {
    BodyMatchesAtCorrect(s);
    if |s| > 0 {
      BodyMatchesAtCorrect(s[..|s| - 1]);
    }
  }

  // ---------------------------------------------------------------------------
  // Validation

  function AsciiLower(s: string): (r: string)
    ensures |r| == |s|
    ensures forall k :: 0 <= k < |s| ==> (r[k] == '@' <==> s[k] == '@')
  {
    if s == [] then ""
    else
      var c := s[0];
      [if 'A' <= c <= 'Z' then (c as int + 32) as char else c] + AsciiLower(s[1..])
  }

  /** `email.lower() in self.invalid_emails`. */
  predicate Blacklisted(s: string) {
    AsciiLower(s) in InvalidEmails
  }

  /** `is_valid_email`. */
  predicate IsValidEmail(v: EmailValue)
    ensures IsValidEmail(v) ==> v.Text? && v.s != "" && IndexOf(v.s, '@').Some?
  {
    match v
    case NoneValue => false
    case NotText => false
    case Text(s) => s != "" && !Blacklisted(s) && RegexAccepts(s)
  }

  /** A matched body ends in a letter, never in a newline. */
  lemma BodyEndsInLetter(t: string)
    requires BodyMatchesAt(t)
    ensures |t| > 0 && AsciiLetter(t[|t| - 1])
  {
    var dot := LastIndexOf(t, '.').value;
    assert dot < |t| - 1;
  }

  /** The part of an accepted string the body matched: the string itself,
      or the string without the newline that ends it. */
  function MatchedPart(s: string): string {
    if |s| > 0 && s[|s| - 1] == '\n' then s[..|s| - 1] else s
  }

  lemma MatchedPartMatches(s: string)
    requires RegexAccepts(s)
    ensures BodyMatchesAt(MatchedPart(s))
  {
    if BodyMatchesAt(s) {
      BodyEndsInLetter(s);
    }
  }

  /** Any string the pattern accepts contains an `@`. */
  lemma AcceptedHasAt(s: string) returns (k: nat)
    requires RegexAccepts(s)
    ensures k < |s| && s[k] == '@'
  {
    MatchedPartMatches(s);
    k := IndexOf(MatchedPart(s), '@').value;
  }

  lemma InvalidEmailsHaveNoAt(w: string)
    requires w in InvalidEmails
    ensures forall k :: 0 <= k < |w| ==> w[k] != '@'
  {
  }

  lemma AcceptedNotBlacklisted(s: string)
    requires RegexAccepts(s)
    ensures !Blacklisted(s)
  {
    var k := AcceptedHasAt(s);
    var w := AsciiLower(s);
    assert w[k] == '@';
    if w in InvalidEmails {
      InvalidEmailsHaveNoAt(w);
    }
  }

  /** No blacklisted word contains an `@`, so the blacklist never decides:
      a string is valid exactly when it is nonempty and the pattern matches. */
  lemma BlacklistIsRedundant(s: string)
    ensures IsValidEmail(Text(s)) <==> s != "" && PatternMatches(s)
  {
    RegexAcceptsCorrect(s);
    if RegexAccepts(s) {
      AcceptedNotBlacklisted(s);
    }
  }

  /** A valid address, with a trailing newline removed if it has one, has
      exactly one `@`, a nonempty part before it, and a final dot followed by
      at least two letters. */
  lemma ValidShape(s: string)
    requires IsValidEmail(Text(s))
    ensures var t := MatchedPart(s);
            exists at, dot :: && 0 < at < dot - 1 && dot < |t| - 2
                              && t[at] == '@' && (forall k :: 0 <= k < |t| && k != at ==> t[k] != '@')
                              && t[dot] == '.' && (forall k :: dot < k < |t| ==> AsciiLetter(t[k]))
  {
    var t := MatchedPart(s);
    assert BodyMatchesAt(t) by {
      MatchedPartMatches(s);
    }
    var at := IndexOf(t, '@').value;
    var dot := LastIndexOf(t, '.').value;
    assert SplitsAt(t, at, dot);
    assert forall k :: 0 <= k < |t| && k != at ==> t[k] != '@' by {
      forall k | 0 <= k < |t| && k != at
        ensures t[k] != '@'
      {
        if k < at {
          assert LocalChar(t[k]);
        } else if k < dot {
          assert DomainChar(t[k]);
        } else if k > dot {
          assert AsciiLetter(t[k]);
        }
      }
    }
  }

  /** The `$` anchor also matches before one final newline. */
  lemma TrailingNewlineAccepted(t: string)
    requires IsValidEmail(Text(t))
    requires t[|t| - 1] != '\n'
    ensures IsValidEmail(Text(t + "\n"))
  {
    var s := t + "\n";
    assert MatchedPart(s) == t;
    MatchedPartMatches(t);
    assert MatchedPart(t) == t;
    AcceptedNotBlacklisted(s);
  }

  lemma ExampleAccepted()
    ensures IsValidEmail(Text("a@b.cc"))
  {
    assert SplitsAt("a@b.cc", 1, 3);
    assert IndexOf("a@b.cc", '@') == Some(1);
    assert LastIndexOf("a@b.cc", '.') == Some(3);
    AcceptedNotBlacklisted("a@b.cc");
  }

  lemma ExampleWithNewlineAccepted()
    ensures IsValidEmail(Text("a@b.cc\n"))
  {
    var t := "a@b.cc";
    ExampleAccepted();
    assert t[|t| - 1] == 'c';
    TrailingNewlineAccepted(t);
    assert t + "\n" == "a@b.cc\n";
  }

  lemma ExampleShortTldRejected()
    ensures !IsValidEmail(Text("a@b.c"))
  {
    assert LastIndexOf("a@b.c", '.') == Some(3);
    assert !BodyMatchesAt("a@b.c");
    assert "a@b.c"[4] != '\n';
  }

  // ---------------------------------------------------------------------------
  // The ID-token payload

  /** Python's `sep.join(parts)`. */
  function Join(parts: seq<string>, sep: char): string
    requires |parts| >= 1
  {
    if |parts| == 1 then parts[0] else parts[0] + [sep] + Join(parts[1..], sep)
  }

  /** Python's `s.split(sep)`: the parts join back to `s`, and none of them
      contains the separator. */
  function Split(s: string, sep: char): (parts: seq<string>)
    ensures |parts| >= 1
    ensures forall i, k :: 0 <= i < |parts| && 0 <= k < |parts[i]| ==> parts[i][k] != sep
    ensures Join(parts, sep) == s
  {
    match IndexOf(s, sep)
    case None => [s]
    case Some(i) =>
      var rest := Split(s[i + 1..], sep);
      var parts := [s[..i]] + rest;
      assert parts[1..] == rest;
      assert s == s[..i] + [sep] + s[i + 1..];
      parts
  }

  /** The two properties of `Split` determine it: any list of parts without
      the separator that joins back to `s` is `Split(s, sep)`. So the second
      part of a token is the text between its first and second dot. */
  lemma {:induction false} SplitUnique(s: string, sep: char, parts: seq<string>)
    requires |parts| >= 1 && Join(parts, sep) == s
    requires forall i, k :: 0 <= i < |parts| && 0 <= k < |parts[i]| ==> parts[i][k] != sep
    ensures parts == Split(s, sep)
  {
    if |parts| == 1 {
      assert s == parts[0];
    } else {
      var n := |parts[0]|;
      var tail := Join(parts[1..], sep);
      assert s == parts[0] + [sep] + tail;
      assert s[n] == sep;
      assert forall k :: 0 <= k < n ==> s[k] == parts[0][k];
      assert IndexOf(s, sep) == Some(n);
      assert s[..n] == parts[0];
      assert s[n + 1..] == tail;
      SplitUnique(tail, sep, parts[1..]);
      assert parts == [parts[0]] + parts[1..];
    }
  }

  /** A token yields a second part exactly when it contains a dot. */
  lemma SplitHasSecondPart(s: string, sep: char)
    ensures |Split(s, sep)| >= 2 <==> exists k :: 0 <= k < |s| && s[k] == sep
  {
    if IndexOf(s, sep).Some? {
      var i := IndexOf(s, sep).value;
      assert s[i] == sep;
    }
  }

  /** `payload_b64 += '=' * (4 - len(payload_b64) % 4)`. */
  function PaddedPayload(segment: string): (r: string)
    ensures segment <= r
    ensures 1 <= |r| - |segment| <= 4
    ensures |r| % 4 == 0
    ensures forall k :: |segment| <= k < |r| ==> r[k] == '='
    ensures |segment| % 4 == 0 ==> |r| == |segment| + 4
  {
    segment + seq(4 - |segment| % 4, _ => '=')
  }

  /** Padding is also the least number of `=` that aligns the length, except
      that an aligned segment gets four more rather than none. */
  lemma PaddingIsMinimalWhenNeeded(segment: string, n: nat)
    requires |segment| % 4 != 0
    requires (|segment| + n) % 4 == 0
    ensures |PaddedPayload(segment)| - |segment| <= n
  {
  }

  // ---------------------------------------------------------------------------
  // Sources of an address

  /** `get_colab_email_oauth2`. `idToken` is the ID token the credentials
      carry after refreshing, None when authentication raised or no token is
      available; `emailClaim` is the `email` field of the decoded payload of
      a padded segment, None when decoding raised or there is no such field. */
  function OAuth2Email(idToken: Option<string>, emailClaim: string -> Option<EmailValue>): (r: Option<string>)
    ensures r.Some? ==> IsValidEmail(Text(r.value))
    ensures r.Some? <==> idToken.Some? && HasPayload(idToken.value)
                         && ValidClaim(emailClaim(PaddedPayload(Split(idToken.value, '.')[1])))
    ensures r.Some? ==> emailClaim(PaddedPayload(Split(idToken.value, '.')[1])) == Some(Text(r.value))
  {
    match idToken
    case None => None
    case Some(token) =>
      if token == "" then None
      else
        var parts := Split(token, '.');
        if |parts| < 2 then None
        else
          match emailClaim(PaddedPayload(parts[1]))
          case Some(Text(e)) => if IsValidEmail(Text(e)) then Some(e) else None
          case _ => None
  }

  /** The ID token has a payload segment to decode. */
  predicate HasPayload(token: string) {
    |Split(token, '.')| >= 2
  }

  /** The decoded `email` field is a string that passes validation. */
  predicate ValidClaim(claim: Option<EmailValue>) {
    claim.Some? && claim.value.Text? && IsValidEmail(claim.value)
  }

  /** `get_colab_email_gcloud`. `run` is the return code and standard output
      of `gcloud auth list`, None when the command timed out, was not found
      or raised. */
  function GcloudEmail(run: Option<(int, string)>): (r: Option<string>)
    ensures r.Some? ==> IsValidEmail(Text(r.value))
    ensures r.Some? ==> run.Some? && r.value == Strip(run.value.1) && run.value.0 == 0
    ensures run.Some? && run.value.0 == 0 && IsValidEmail(Text(Strip(run.value.1))) ==> r == Some(Strip(run.value.1))
  {
    match run
    case None => None
    case Some((code, out)) =>
      var email := Strip(out);
      if code == 0 && email != "" && IsValidEmail(Text(email)) then Some(email) else None
  }

  /** Stripped output never ends in a newline, so the address `gcloud`
      yields passes the pattern without the `$` allowance. */
  lemma GcloudEmailHasNoNewline(run: Option<(int, string)>)
    requires GcloudEmail(run).Some?
    ensures var e := GcloudEmail(run).value; e[|e| - 1] != '\n'
  {
  }

  /** Which source `get_colab_email_auto` consulted. */
  datatype Source = SavedAddress | OAuth2 | Gcloud

  /** `get_colab_email_auto`. `colab` is what `is_colab()` answers, None
      when the environment probe raised; that call is outside the `try`, so
      the error propagates (`raised`) and nothing is consulted. `saved` is
      what `load_email_address` returns, `oauth` and `gcloud` what the two
      methods above return. */
  method GetColabEmailAuto(colab: Option<bool>, saved: EmailValue, oauth: Option<string>, gcloud: Option<string>)
    returns (email: Option<string>, consulted: seq<Source>, raised: bool)
    ensures raised <==> colab.None?
    ensures raised ==> email == None && consulted == []
    ensures email.Some? ==> colab == Some(true)
    ensures colab == Some(false) ==> email == None && consulted == []
    ensures colab == Some(true) && IsValidEmail(saved) ==> email == Some(saved.s) && consulted == [SavedAddress]
    ensures colab == Some(true) && !IsValidEmail(saved) && oauth.Some? && oauth.value != "" ==>
              email == oauth && consulted == [SavedAddress, OAuth2]
    ensures colab == Some(true) && !IsValidEmail(saved) && !(oauth.Some? && oauth.value != "")
              && gcloud.Some? && gcloud.value != "" ==>
              email == gcloud && consulted == [SavedAddress, OAuth2, Gcloud]
    ensures colab == Some(true) && !IsValidEmail(saved) && !(oauth.Some? && oauth.value != "")
              && !(gcloud.Some? && gcloud.value != "") ==>
              email == None && consulted == [SavedAddress, OAuth2, Gcloud]
  {
    consulted := [];
    if colab.None? {
      return None, consulted, true;
    }
    raised := false;
    if !colab.value {
      return None, consulted, raised;
    }
    consulted := consulted + [SavedAddress];
    if saved.Text? && saved.s != "" && IsValidEmail(saved) {
      return Some(saved.s), consulted, raised;
    }
    consulted := consulted + [OAuth2];
    if oauth.Some? && oauth.value != "" {
      return oauth, consulted, raised;
    }
    consulted := consulted + [Gcloud];
    if gcloud.Some? && gcloud.value != "" {
      return gcloud, consulted, raised;
    }
    email := None;
  }

  /** Whatever the detection chain returns from the real sources is a
      valid address. */
  method DetectEmail(colab: Option<bool>, saved: EmailValue, idToken: Option<string>,
                     emailClaim: string -> Option<EmailValue>, run: Option<(int, string)>)
    returns (email: Option<string>, raised: bool)
    ensures raised <==> colab.None?
    ensures email.Some? ==> colab == Some(true) && IsValidEmail(Text(email.value))
    ensures IsValidEmail(saved) && colab == Some(true) ==> email == Some(saved.s)
  {
    var consulted;
    email, consulted, raised := GetColabEmailAuto(colab, saved, OAuth2Email(idToken, emailClaim), GcloudEmail(run));
  }
}
