/** The e-mail pattern `^[^\s@]+@[^\s@]+\.[^\s@]+$` shared by the contact form and the mock
    server, as a predicate on strings (with `\s` read as ASCII whitespace). */
module EmailPattern {
  import opened Text

  /** A character the class `[^\s@]` accepts. */
  predicate Plain(c: char)
  {
    !IsSpace(c) && c != '@'
  }

  predicate AllPlain(s: string)
  {
    forall k :: 0 <= k < |s| ==> Plain(s[k])
  }

  /** The regular expression read literally: three non-empty runs of plain characters,
      the first two separated by `@`, the last two by a `.`. */
  ghost predicate SplitsAt(s: string, at: int, dot: int)
  {
    && 0 < at && at + 1 < dot && dot + 1 < |s|
    && s[at] == '@' && s[dot] == '.'
    && AllPlain(s[..at]) && AllPlain(s[at + 1..dot]) && AllPlain(s[dot + 1..])
  }

  ghost predicate MatchesPattern(s: string)
  {
    exists at, dot :: SplitsAt(s, at, dot)
  }

  /** The check the page performs, stated without any splitting: no whitespace, exactly one
      `@` which is not the first character, and a `.` after it that neither follows the `@`
      directly nor ends the string. */
  predicate IsEmail(s: string)
  {
    && (forall k :: 0 <= k < |s| ==> !IsSpace(s[k]))
    && (exists at :: 0 < at < |s| && s[at] == '@'
         && (forall k :: 0 <= k < |s| && s[k] == '@' ==> k == at)
         && (exists dot :: at + 1 < dot < |s| - 1 && s[dot] == '.'))
  }

  /** The flat check accepts exactly the strings the regular expression accepts. */
  lemma IsEmailMatchesPattern(s: string)
    ensures IsEmail(s) <==> MatchesPattern(s)
  {
    if IsEmail(s) {
      var at :| 0 < at < |s| && s[at] == '@'
        && (forall k :: 0 <= k < |s| && s[k] == '@' ==> k == at)
        && exists dot :: at + 1 < dot < |s| - 1 && s[dot] == '.';
      var dot :| at + 1 < dot < |s| - 1 && s[dot] == '.';
      assert SplitsAt(s, at, dot);
    }
    if MatchesPattern(s) {
      var at, dot :| SplitsAt(s, at, dot);
      forall k | 0 <= k < |s|
        ensures !IsSpace(s[k]) && (s[k] == '@' ==> k == at)
      {
        if k < at {
          assert s[k] == s[..at][k];
        } else if at < k < dot {
          assert s[k] == s[at + 1..dot][k - at - 1];
        } else if dot < k {
          assert s[k] == s[dot + 1..][k - dot - 1];
        }
      }
      assert IsEmail(s);
    }
  }
}
