/**
 * The input validators of utils.py (repeated verbatim in app.py) and the
 * persona catalogue. All three validators accept any JSON value, as the
 * Python functions do, and reject whatever is falsy or not a string.
 */
module Validation {

  import opened Text
  import opened Http

  const MinUserIdLength := 20
  const MaxUserIdLength := 128
  const MaxMessageLength := 5000

  /** The closed persona set, case-sensitive. */
  const Personas: seq<string> := ["Luna", "Sweet & Caring", "Flirty", "Submissive", "Seductive"]

  // ---------------------------------------------------------------------------
  // User ids: `re.match(r'^[a-zA-Z0-9_-]+$', user_id)` plus a length window
  // ---------------------------------------------------------------------------

  predicate IsIdChar(c: char) {
    ('a' <= c <= 'z') || ('A' <= c <= 'Z') || ('0' <= c <= '9') || c == '_' || c == '-'
  }

  predicate AllIdChars(s: string) {
    forall i :: 0 <= i < |s| ==> IsIdChar(s[i])
  }

  /** How many characters the greedy `[a-zA-Z0-9_-]+` consumes from the start of `s`. */
  function IdRun(s: string): (n: nat)
    ensures n <= |s|
  {
    if s != [] && IsIdChar(s[0]) then 1 + IdRun(s[1..]) else 0
  }

  /**
   * The regular expression as Python's `re.match` runs it: the run must be
   * non-empty and `$` must then hold, i.e. the run reaches the end of the
   * string or stops just before a final newline. Backtracking to a shorter
   * run never helps, since the character after it would be an id character.
   */
  predicate MatchesIdPattern(s: string) {
    var n := IdRun(s);
    n >= 1 && (n == |s| || (n == |s| - 1 && s[n] == '\n'))
  }

  /**
   * `validate_user_id`. A valid id is a string of 20 to 128 characters,
   * each an id character except that the last may be the newline `$`
   * lets through.
   */
  predicate ValidateUserId(v: Value)
    ensures ValidateUserId(v) ==>
              && v.Str? && MinUserIdLength <= |v.s| <= MaxUserIdLength && IsIdChar(v.s[0])
              && forall i :: 0 <= i < |v.s| ==> IsIdChar(v.s[i]) || (i == |v.s| - 1 && v.s[i] == '\n')
  {
    && Truthy(v)
    && v.Str?
    && MinUserIdLength <= |v.s| <= MaxUserIdLength
    && (IdRunStopsAtNonIdChar(v.s); MatchesIdPattern(v.s))
  }

  lemma {:induction false} IdRunStopsAtNonIdChar(s: string)
    ensures AllIdChars(s[..IdRun(s)])
    ensures IdRun(s) < |s| ==> !IsIdChar(s[IdRun(s)])
  {
    if s != [] && IsIdChar(s[0]) {
      IdRunStopsAtNonIdChar(s[1..]);
      var n := IdRun(s[1..]);
      var run := s[..n + 1];
      forall i | 0 <= i < |run| ensures IsIdChar(run[i]) {
        if i > 0 { assert run[i] == s[1..][..n][i - 1]; }
      }
    }
  }

  lemma {:induction false} IdRunCoversIdPrefix(s: string, k: nat)
    requires k <= |s| && AllIdChars(s[..k])
    ensures IdRun(s) >= k
  {
    if k > 0 {
      assert IsIdChar(s[..k][0]);
      assert s[1..][..k - 1] == s[..k][1..];
      IdRunCoversIdPrefix(s[1..], k - 1);
    }
  }

  lemma {:induction false} IdRunBelowNonIdChar(s: string, k: nat)
    requires k < |s| && !IsIdChar(s[k])
    ensures IdRun(s) <= k
  {
    if k > 0 && IsIdChar(s[0]) {
      IdRunBelowNonIdChar(s[1..], k - 1);
    }
  }

  /**
   * The pattern accepts exactly the non-empty strings of id characters, and
   * those same strings followed by a single newline.
   */
  lemma IdPatternIff(s: string)
    ensures MatchesIdPattern(s) <==>
            (s != [] && AllIdChars(s)) ||
            (|s| >= 2 && s[|s| - 1] == '\n' && AllIdChars(s[..|s| - 1]))
  {
    var n := IdRun(s);
    IdRunStopsAtNonIdChar(s);
    if s != [] && AllIdChars(s) {
      assert s[..|s|] == s;
      IdRunCoversIdPrefix(s, |s|);
    }
    if |s| >= 2 && s[|s| - 1] == '\n' && AllIdChars(s[..|s| - 1]) {
      IdRunCoversIdPrefix(s, |s| - 1);
      IdRunBelowNonIdChar(s, |s| - 1);
    }
    if MatchesIdPattern(s) && n == |s| {
      assert s[..n] == s;
    }
  }

  /** `validate_user_id` on a string, stated without the regular-expression engine. */
  lemma UserIdIff(s: string)
    ensures ValidateUserId(Str(s)) <==>
            && 20 <= |s| <= 128
            && (AllIdChars(s) || (s[|s| - 1] == '\n' && AllIdChars(s[..|s| - 1])))
  {
    IdPatternIff(s);
  }

  /**
   * For a string made only of id characters the length window alone decides:
   * 19 and 129 characters are rejected, 20 and 128 accepted.
   */
  lemma UserIdLengthWindow(s: string)
    requires AllIdChars(s)
    ensures ValidateUserId(Str(s)) <==> 20 <= |s| <= 128
  {
    UserIdIff(s);
  }

  /**
   * Python's `$` matches before a final newline, so an id followed by one
   * "\n" passes the check; two newlines, or a newline elsewhere, do not.
   */
  lemma UserIdTrailingNewline(s: string)
    requires 19 <= |s| <= 127 && AllIdChars(s)
    ensures ValidateUserId(Str(s + "\n"))
    ensures !ValidateUserId(Str(s + "\n\n"))
    ensures |s| >= 2 ==> !ValidateUserId(Str(s[..1] + "\n" + s[1..]))
  {
    var t := s + "\n";
    assert t[..|t| - 1] == s;
    UserIdIff(t);
    var u := s + "\n\n";
    assert !IsIdChar(u[|u| - 2]);
    UserIdIff(u);
    if |s| >= 2 {
      var w := s[..1] + "\n" + s[1..];
      assert !IsIdChar(w[1]);
      assert w[|w| - 1] == s[|s| - 1];
      assert w[..|w| - 1][1] == '\n';
      UserIdIff(w);
    }
  }

  // ---------------------------------------------------------------------------
  // Messages
  // ---------------------------------------------------------------------------

  /** `validate_message`: a non-blank string of at most 5000 characters (length before stripping). */
  predicate ValidateMessage(v: Value)
    ensures v.Str? && AllSpace(v.s) ==> !ValidateMessage(v)
    ensures v.Str? && (exists i :: 0 <= i < |v.s| && !IsSpace(v.s[i])) && |v.s| <= MaxMessageLength ==> ValidateMessage(v)
  {
    && Truthy(v)
    && v.Str?
    && (StripEmptyIffAllSpace(v.s); Strip(v.s) != [])
    && |v.s| <= MaxMessageLength
  }

  /** A message passes exactly when it has a non-whitespace character and at most 5000 characters. */
  lemma MessageIff(s: string)
    ensures ValidateMessage(Str(s)) <==>
            |s| <= 5000 && exists i :: 0 <= i < |s| && !IsSpace(s[i])
  {
    StripEmptyIffAllSpace(s);
  }

  // ---------------------------------------------------------------------------
  // Personas
  // ---------------------------------------------------------------------------

  /** `validate_persona`: membership in the five names, exact and case-sensitive. */
  predicate ValidatePersona(v: Value)
    ensures ValidatePersona(v) ==> v.Str? && v.s in PersonaPrompts
  {
    v.Str? && v.s in Personas
  }

  lemma PersonaIff(v: Value)
    ensures ValidatePersona(v) <==>
            v in {Str("Luna"), Str("Sweet & Caring"), Str("Flirty"), Str("Submissive"), Str("Seductive")}
  {
  }

  /**
   * PERSONA_PROMPTS: one behavioural description per persona. The
   * descriptions are free prose for the model and are kept opaque here.
   */
  const PersonaPrompts: map<string, string> := map[
    "Sweet & Caring" := "[Sweet & Caring persona description]",
    "Flirty" := "[Flirty persona description]",
    "Submissive" := "[Submissive persona description]",
    "Seductive" := "[Seductive persona description]",
    "Luna" := "[Luna persona description]"
  ]

  /** Every valid persona has a description, and nothing else has one. */
  lemma PromptKeysArePersonas()
    ensures PersonaPrompts.Keys == set p | p in Personas
    ensures forall p :: ValidatePersona(Str(p)) <==> p in PersonaPrompts
  {
  }
}
