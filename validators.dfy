/** The field rules the backend and the React forms share: the password policy
    `/^(?=.*[A-Z])(?=.*[!@#$%^&*]).{8,16}$/`, the email pattern `/\S+@\S+\.\S+/`, and the
    early-return chains in which the first failing check decides the error message. */
module Validators {
  import opened Base
  import opened Text

  /** `isValidPassword` (backend/src/controllers/authController.js): 8 to 16 characters, none
      of them a line terminator (which `.` does not match), at least one `A`-`Z` and at least
      one of `!@#$%^&*`. */
  predicate IsValidPassword(p: string)
  {
    && 8 <= |p| <= 16
    && (forall i | 0 <= i < |p| :: !IsLineTerminator(p[i]))
    && (exists i | 0 <= i < |p| :: IsUpper(p[i]))
    && (exists i | 0 <= i < |p| :: IsSpecial(p[i]))
  }

  /** The example passwords of the design: lower-case letters alone fail, and one upper-case
      letter with one symbol suffices. */
  lemma PasswordExamples()
    ensures !IsValidPassword("abcdefgh")
    ensures IsValidPassword("Abcdef1!")
    ensures IsValidPassword("Passw0rd!")
    ensures !IsValidPassword("Abcdefg!Abcdefg!x")
  {
    assert IsUpper("Abcdef1!"[0]) && IsSpecial("Abcdef1!"[7]);
    assert IsUpper("Passw0rd!"[0]) && IsSpecial("Passw0rd!"[8]);
  }

  /** The email pattern matches with `@` at index `at` and `.` at index `dot`: a non-space
      character before `@`, only non-space characters (at least one) between them, and a
      non-space character after `.`. */
  predicate EmailMatchAt(s: string, at: nat, dot: nat)
  {
    && 0 < at && at + 1 < dot && dot + 1 < |s|
    && s[at] == '@' && s[dot] == '.'
    && !IsSpace(s[at - 1]) && NoSpace(s[at + 1..dot]) && !IsSpace(s[dot + 1])
  }

  /** `/\S+@\S+\.\S+/.test(s)`, unanchored. */
  predicate LooksLikeEmail(s: string)
  {
    exists at: nat, dot: nat | at < dot < |s| :: EmailMatchAt(s, at, dot)
  }

  /** `s` splits as `pre + a + "@" + b + "." + c + post` with `a`, `b`, `c` non-empty runs of
      non-space characters: the language of the regular expression read literally. */
  ghost predicate RegexSplit(s: string, pre: string, a: string, b: string, c: string, post: string)
  {
    && s == pre + a + "@" + b + "." + c + post
    && a != [] && b != [] && c != []
    && NoSpace(a) && NoSpace(b) && NoSpace(c)
  }

  ghost predicate EmailRegexMatches(s: string)
  {
    exists pre, a, b, c, post :: RegexSplit(s, pre, a, b, c, post)
  }

  /** The index test agrees with the regular expression, in both directions. */
  lemma LooksLikeEmailIsRegex(s: string)
    ensures LooksLikeEmail(s) <==> EmailRegexMatches(s)
  {
    if LooksLikeEmail(s) {
      var at: nat, dot: nat :| at < dot < |s| && EmailMatchAt(s, at, dot);
      var pre, a, b, c, post := s[..at - 1], [s[at - 1]], s[at + 1..dot], [s[dot + 1]], s[dot + 2..];
      assert s == pre + a + "@" + b + "." + c + post;
      assert RegexSplit(s, pre, a, b, c, post);
    }
    if EmailRegexMatches(s) {
      var pre, a, b, c, post :| RegexSplit(s, pre, a, b, c, post);
      var at := |pre| + |a|;
      var dot := at + 1 + |b|;
      assert s[at - 1] == a[|a| - 1];
      assert s[at] == '@';
      assert s[at + 1..dot] == b;
      assert s[dot] == '.';
      assert s[dot + 1] == c[0];
      assert EmailMatchAt(s, at, dot);
    }
  }

  lemma EmailExamples()
    ensures LooksLikeEmail("a@b.c")
    ensures !LooksLikeEmail("alice")
  {
    assert EmailMatchAt("a@b.c", 1, 3);
    var s := "alice";
    forall at: nat, dot: nat | at < dot < |s| ensures !EmailMatchAt(s, at, dot) {
      assert s[at] != '@';
    }
  }

  /** A check of a validation chain: whether it fails, and the message it then sends. */
  datatype Guard = Guard(fails: bool, message: string)

  /** The message of the first failing check, if any. */
  function FirstFailure(gs: seq<Guard>): Option<string>
  {
    if gs == [] then None
    else if gs[0].fails then Some(gs[0].message)
    else FirstFailure(gs[1..])
  }

  /** The chain reports the message of check `i` exactly when check `i` fails and no check
      before it does; it reports nothing exactly when no check fails. */
  lemma {:induction false} FirstFailureSpec(gs: seq<Guard>)
    ensures FirstFailure(gs).None? <==> forall i | 0 <= i < |gs| :: !gs[i].fails
    ensures FirstFailure(gs).Some? ==>
      exists i | 0 <= i < |gs| :: gs[i].fails && gs[i].message == FirstFailure(gs).value
                                  && forall j | 0 <= j < i :: !gs[j].fails
  {
    if gs != [] && !gs[0].fails {
      FirstFailureSpec(gs[1..]);
      assert forall i | 1 <= i < |gs| :: gs[i] == gs[1..][i - 1];
      if FirstFailure(gs).Some? {
        var i :| 0 <= i < |gs[1..]| && gs[1..][i].fails && gs[1..][i].message == FirstFailure(gs).value
                 && forall j | 0 <= j < i :: !gs[1..][j].fails;
        assert gs[i + 1] == gs[1..][i];
        assert forall j | 1 <= j < i + 1 :: gs[j] == gs[1..][j - 1];
      }
    }
  }

  /** A chain run in two parts: the second part speaks only if the first passes. */
  lemma {:induction false} FirstFailureAppend(gs: seq<Guard>, hs: seq<Guard>)
    ensures FirstFailure(gs + hs) == if FirstFailure(gs).Some? then FirstFailure(gs) else FirstFailure(hs)
  {
    if gs == [] {
      assert gs + hs == hs;
    } else {
      assert (gs + hs)[0] == gs[0];
      assert (gs + hs)[1..] == gs[1..] + hs;
      FirstFailureAppend(gs[1..], hs);
    }
  }
}
