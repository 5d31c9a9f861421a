/**
 * Prompt assembly in `chat()`: the persona description, a context clause
 * that depends on whether this is the first message with the persona, the
 * shared rules, the user's message and the turn marker. The prose itself is
 * opaque; what is modelled is which pieces appear and in which order.
 */
module Prompt {

  import opened Text
  import opened Validation

  const FirstMessageContext := "\n\nThis" + " is the FIRST message in your conversation. [first-meeting guidance]"

  function ContinuingContext(count: nat): string {
    "\n\nYou've" + " been chatting for a while now (" + Decimal(count) + " messages exchanged). [continuing guidance]"
  }

  /** The shared rules, closed by the "User: " label that precedes the message. */
  const RulesBlock := "\n\nCRITICAL RULES:\n[shared style rules]\n\nUser: "

  const TurnMarker := "\nLuna:"

  /** `persona_prompts.get(persona, persona_prompts['Luna'])`. */
  function Template(persona: string): (t: string)
    ensures t in PersonaPrompts.Values
    ensures !ValidatePersona(Http.Str(persona)) ==> t == PersonaPrompts["Luna"]
  {
    PromptKeysArePersonas();
    if persona in PersonaPrompts then PersonaPrompts[persona] else PersonaPrompts["Luna"]
  }

  function ContextClause(isNew: bool, count: nat): string {
    if isNew then FirstMessageContext else ContinuingContext(count)
  }

  /** The full prompt sent to every candidate model. */
  function ComposePrompt(persona: string, isNew: bool, count: nat, message: string): (p: string)
    ensures StartsWith(p, Template(persona))
  {
    Template(persona) + ContextClause(isNew, count) + RulesBlock + message + TurnMarker
  }

  /** A valid persona gets its own description, never the fallback. */
  lemma TemplateOfValidPersona(persona: string)
    requires ValidatePersona(Http.Str(persona))
    ensures Template(persona) == PersonaPrompts[persona]
  {
    PromptKeysArePersonas();
  }

  lemma {:induction false} ConcatLayout(t: string, c: string, r: string, m: string, k: string)
    ensures var p := t + c + r + m + k;
            && p[..|t|] == t
            && p[|t|..] == c + (r + m + k)
            && p[|p| - |k| - |m|..] == m + k
  {
    var p := t + c + r + m + k;
    assert p == t + (c + (r + m + k));
    assert p == (t + c + r) + (m + k);
  }

  /** The first-message clause opens a context clause exactly when the conversation is new. */
  lemma FirstClauseIffNew(isNew: bool, count: nat, rest: string)
    ensures StartsWith(ContextClause(isNew, count) + rest, FirstMessageContext) <==> isNew
  {
    var s := ContextClause(isNew, count) + rest;
    if isNew {
      assert s[..|FirstMessageContext|] == FirstMessageContext;
    } else {
      assert s[2] == 'Y';
      assert FirstMessageContext[2] == 'T';
    }
  }

  /**
   * The prompt opens with the persona's description, carries the
   * first-message clause right after it exactly when the conversation is new,
   * and closes with the user's message followed by the turn marker.
   */
  lemma PromptLayout(persona: string, isNew: bool, count: nat, message: string)
    ensures var p := ComposePrompt(persona, isNew, count, message);
            var t := Template(persona);
            && |t| <= |p|
            && p[..|t|] == t
            && (StartsWith(p[|t|..], FirstMessageContext) <==> isNew)
            && |message| + |TurnMarker| <= |p|
            && p[|p| - |TurnMarker| - |message|..] == message + TurnMarker
  {
    var t := Template(persona);
    var c := ContextClause(isNew, count);
    ConcatLayout(t, c, RulesBlock, message, TurnMarker);
    FirstClauseIffNew(isNew, count, RulesBlock + message + TurnMarker);
  }

  /** Two continuing-conversation clauses are equal only for the same message count. */
  lemma ContinuingContextInjective(a: nat, b: nat)
    requires ContinuingContext(a) == ContinuingContext(b)
    ensures a == b
  {
    var head := "\n\nYou've" + " been chatting for a while now (";
    var ca := ContinuingContext(a);
    assert |Decimal(a)| == |Decimal(b)|;
    assert ca[|head|..|head| + |Decimal(a)|] == Decimal(a);
    assert ContinuingContext(b)[|head|..|head| + |Decimal(b)|] == Decimal(b);
    DecimalInjective(a, b);
  }
}
