/**
 * The two regular expressions of the forms, each given twice: once as what
 * a match of the pattern is (a ghost reference definition that follows the
 * pattern's structure), once as the predicate the forms evaluate, with a
 * lemma that the two agree on every string.
 *
 *   email: ^[^\s@]+@[^\s@]+\.[^\s@]+$       (both forms)
 *   phone: ^[\+]?[0-9\s\-\(\)]{10,}$        (lead form)
 */
module Patterns {

  import opened Wrappers
  import opened Text

  predicate NoSpace(s: string) {
    forall k | 0 <= k < |s| :: !IsSpace(s[k])
  }

  /** `s[lo..hi]` is one `[^\s@]+` run of the email pattern. */
  predicate EmailRun(s: string, lo: int, hi: int)
    requires 0 <= lo <= hi <= |s|
  {
    lo < hi && forall k | lo <= k < hi :: !IsSpace(s[k]) && s[k] != '@'
  }

  /** `s` matches the email pattern: three runs, separated by the `@` at `at`
      and the literal `.` at `dot`. */
  ghost predicate EmailPatternMatches(s: string) {
    exists at, dot | 0 <= at < dot < |s| ::
      s[at] == '@' && s[dot] == '.'
      && EmailRun(s, 0, at) && EmailRun(s, at + 1, dot) && EmailRun(s, dot + 1, |s|)
  }

  /** The email test of both forms: no whitespace, a first `@` that is not the
      first character and is followed by no other `@`, and a `.` strictly
      inside what follows the `@`. */
  function ValidateEmailFormat(email: string): bool {
    match IndexOf(email, '@')
    case None => false
    case Some(at) =>
      0 < at && NoSpace(email)
      && (forall k | at < k < |email| :: email[k] != '@')
      && exists dot | at + 1 < dot < |email| - 1 :: email[dot] == '.'
  }

  /** What the email test accepts, the pattern matches. */
  lemma EmailFormatMatches(s: string)
    requires ValidateEmailFormat(s)
    ensures EmailPatternMatches(s)
  {
    var at := IndexOf(s, '@').value;
    var dot :| at + 1 < dot < |s| - 1 && s[dot] == '.';
    assert EmailRun(s, 0, at) && EmailRun(s, at + 1, dot) && EmailRun(s, dot + 1, |s|);
  }

  /** The three runs and the two separators leave no room for whitespace. */
  lemma RunsHaveNoSpace(s: string, at: nat, dot: nat)
    requires at < dot < |s| && s[at] == '@' && s[dot] == '.'
    requires EmailRun(s, 0, at) && EmailRun(s, at + 1, dot) && EmailRun(s, dot + 1, |s|)
    ensures NoSpace(s)
  {
    forall k | 0 <= k < |s| ensures !IsSpace(s[k]) {
      if k < at {
        assert EmailRun(s, 0, at);
      } else if at < k < dot {
        assert EmailRun(s, at + 1, dot);
      } else if dot < k {
        assert EmailRun(s, dot + 1, |s|);
      }
    }
  }

  /** What the pattern matches, the email test accepts. */
  lemma EmailMatchAccepted(s: string)
    requires EmailPatternMatches(s)
    ensures ValidateEmailFormat(s)
  {
    var at, dot :| 0 <= at < dot < |s| && s[at] == '@' && s[dot] == '.'
      && EmailRun(s, 0, at) && EmailRun(s, at + 1, dot) && EmailRun(s, dot + 1, |s|);
    RunsHaveNoSpace(s, at, dot);
    assert forall k | 0 <= k < |s| && k != at :: s[k] != '@' by {
      forall k | 0 <= k < |s| && k != at ensures s[k] != '@' {
        if k < at {
          assert EmailRun(s, 0, at);
        } else if at < k < dot {
          assert EmailRun(s, at + 1, dot);
        } else if dot < k {
          assert EmailRun(s, dot + 1, |s|);
        }
      }
    }
    EmailAcceptedAt(s, at, dot);
  }

  /** The email test accepts exactly the strings the pattern matches. */
  lemma EmailFormatIsPattern(s: string)
    ensures ValidateEmailFormat(s) <==> EmailPatternMatches(s)
  {
    if ValidateEmailFormat(s) {
      EmailFormatMatches(s);
    }
    if EmailPatternMatches(s) {
      EmailMatchAccepted(s);
    }
  }

  /** The email test in words: no whitespace; exactly one `@`, not in first
      position; after it a `.` with at least one character on either side. */
  lemma EmailAcceptedIff(s: string)
    ensures ValidateEmailFormat(s) <==>
      NoSpace(s)
      && exists at, dot | 0 < at && at + 1 < dot < |s| - 1 ::
           s[at] == '@' && s[dot] == '.' && forall k | 0 <= k < |s| :: s[k] == '@' ==> k == at
  {
    if ValidateEmailFormat(s) {
      var at := IndexOf(s, '@').value;
      var dot :| at + 1 < dot < |s| - 1 && s[dot] == '.';
      assert forall k | 0 <= k < |s| :: s[k] == '@' ==> k == at;
    }
  }

  /** An accepted address is never blank, so the email rule can never accept a
      value the required rule rejected. */
  lemma EmailAcceptedNotBlank(s: string)
    ensures ValidateEmailFormat(s) ==> !IsBlank(s)
  {
    if ValidateEmailFormat(s) {
      assert !IsSpace(s[0]);
    }
  }

  /** Lower-case letters, `.` and `@` are not whitespace. */
  lemma PlainTextHasNoSpace(s: string)
    requires forall k | 0 <= k < |s| :: 'a' <= s[k] <= 'z' || s[k] == '.' || s[k] == '@'
    ensures NoSpace(s)
  {
  }

  /** The email test passes given the positions of the one `@` and of a `.` after it. */
  lemma EmailAcceptedAt(s: string, at: nat, dot: nat)
    requires NoSpace(s) && 0 < at && at + 1 < dot < |s| - 1
    requires s[at] == '@' && s[dot] == '.'
    requires forall k | 0 <= k < |s| && k != at :: s[k] != '@'
    ensures ValidateEmailFormat(s)
  {
    IndexOfIs(s, '@', at);
  }

  lemma EmailAccepted()
    ensures ValidateEmailFormat("user@example.com")
  {
    var ok := "user@example.com";
    assert forall k | 0 <= k < |ok| :: 'a' <= ok[k] <= 'z' || ok[k] == '.' || ok[k] == '@';
    PlainTextHasNoSpace(ok);
    assert forall k | 0 <= k < |ok| && k != 4 :: ok[k] != '@';
    EmailAcceptedAt(ok, 4, 12);
  }

  lemma EmailRejected()
    ensures !ValidateEmailFormat("user@@example")
    ensures !ValidateEmailFormat("")
  {
    var bad := "user@@example";
    assert IndexOf(bad, '@') == Some(4);
    assert bad[5] == '@';
  }

  /** The character class `[0-9\s\-\(\)]`; its whitespace is the whole of `\s`. */
  predicate PhoneChar(c: char) {
    IsDigit(c) || IsSpace(c) || c == '-' || c == '(' || c == ')'
  }

  /** `s[p..]` is a `[0-9\s\-\(\)]{10,}` run. */
  ghost predicate PhoneRun(s: string, p: int)
    requires 0 <= p <= |s|
  {
    |s| - p >= 10 && forall k | p <= k < |s| :: PhoneChar(s[k])
  }

  /** `s` matches the phone pattern: `[\+]?` takes `p` characters, zero or one,
      all of them `+`, and the run takes the rest. */
  ghost predicate PhonePatternMatches(s: string) {
    exists p | 0 <= p <= 1 && p <= |s| :: (p == 1 ==> s[0] == '+') && PhoneRun(s, p)
  }

  /** `validatePhone` of the lead form. */
  function ValidatePhone(phone: string): bool {
    var body := if |phone| > 0 && phone[0] == '+' then phone[1..] else phone;
    |body| >= 10 && forall c | c in body :: PhoneChar(c)
  }

  /** The phone test accepts exactly the strings the pattern matches. */
  lemma PhoneIsPattern(s: string)
    ensures ValidatePhone(s) <==> PhonePatternMatches(s)
  {
    var p := if |s| > 0 && s[0] == '+' then 1 else 0;
    var body := s[p..];
    assert forall k | p <= k < |s| :: s[k] == body[k - p];
    if ValidatePhone(s) {
      assert PhoneRun(s, p);
    }
    if PhonePatternMatches(s) {
      var q :| 0 <= q <= 1 && q <= |s| && (q == 1 ==> s[0] == '+') && PhoneRun(s, q);
      assert q == p;
      forall c | c in body ensures PhoneChar(c) {
        var k :| 0 <= k < |body| && body[k] == c;
        assert s[k + p] == c;
      }
    }
  }

  lemma PhoneAccepted()
    ensures ValidatePhone("+6281234567")
    ensures ValidatePhone("(021) 555-01")
  {
  }

  lemma PhoneRefused()
    ensures !ValidatePhone("0812345")
    ensures !ValidatePhone("++6281234567")
  {
    assert "++6281234567"[1..][0] == '+' && !PhoneChar('+');
  }

  /** The class's `\s` lets ten spaces pass as a phone number. */
  lemma PhoneAcceptsSpaces()
    ensures ValidatePhone("          ")
  {
    var blank := "          ";
    assert forall c | c in blank :: c == ' ';
  }
}
