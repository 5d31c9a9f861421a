/**
 * The completion step of `chat()`: the candidate models are tried in a fixed
 * order, every failure moves on to the next candidate, the first success
 * wins; when all fail, the text of the last failure decides the answer.
 */
module Models {

  import opened Wrappers
  import opened Text
  import opened Http

  const Candidates: seq<string> := ["gemini-1.5-flash", "gemini-1.5-pro", "gemini-2.0-flash"]

  /** What one call to the provider gives: the reply text, or the text of the exception it raised. */
  datatype Generation = Generated(text: string) | Raised(error: string)

  /** The provider, as a function of the model name and the prompt. */
  type Generator = (string, string) -> Generation

  /** The end of the fallback: a reply and the model that gave it, or the last failure seen. */
  datatype Outcome = Answered(text: string, model: string) | Exhausted(lastError: Option<string>)

  /** The first model in `models` that answers, or the failure of the last one. */
  function FirstSuccess(models: seq<string>, prompt: string, generate: Generator): (r: Outcome)
    ensures r.Answered? ==> r.model in models && generate(r.model, prompt) == Generated(r.text)
    ensures r.Exhausted? ==> (r.lastError.None? <==> models == [])
  {
    if models == [] then Exhausted(None)
    else
      match generate(models[0], prompt)
      case Generated(text) => Answered(text, models[0])
      case Raised(error) =>
        var rest := FirstSuccess(models[1..], prompt, generate);
        if rest == Exhausted(None) then Exhausted(Some(error)) else rest
  }

  /** If every model before position `i` fails and model `i` answers, the answer is model `i`'s. */
  lemma {:induction false} FirstSuccessAt(models: seq<string>, i: nat, prompt: string, generate: Generator)
    requires i < |models|
    requires forall j :: 0 <= j < i ==> generate(models[j], prompt).Raised?
    requires generate(models[i], prompt).Generated?
    ensures FirstSuccess(models, prompt, generate) == Answered(generate(models[i], prompt).text, models[i])
  {
    if i > 0 {
      assert generate(models[0], prompt).Raised?;
      FirstSuccessAt(models[1..], i - 1, prompt, generate);
    }
  }

  /** If every model fails, the outcome carries the failure of the last one. */
  lemma {:induction false} FirstSuccessAllRaised(models: seq<string>, prompt: string, generate: Generator)
    requires models != []
    requires forall j :: 0 <= j < |models| ==> generate(models[j], prompt).Raised?
    ensures FirstSuccess(models, prompt, generate) == Exhausted(Some(generate(models[|models| - 1], prompt).error))
  {
    assert generate(models[0], prompt).Raised?;
    if |models| > 1 {
      FirstSuccessAllRaised(models[1..], prompt, generate);
    }
  }

  /** The outcome names a model that answered, and only after every earlier one failed. */
  lemma {:induction false} AnsweredIsFirst(models: seq<string>, prompt: string, generate: Generator)
    ensures var o := FirstSuccess(models, prompt, generate);
            o.Answered? ==>
              exists i :: 0 <= i < |models| && models[i] == o.model &&
                generate(models[i], prompt) == Generated(o.text) &&
                forall j :: 0 <= j < i ==> generate(models[j], prompt).Raised?
    ensures FirstSuccess(models, prompt, generate).Exhausted? <==>
            forall j :: 0 <= j < |models| ==> generate(models[j], prompt).Raised?
  {
    if models != [] {
      AnsweredIsFirst(models[1..], prompt, generate);
      var o := FirstSuccess(models, prompt, generate);
      if generate(models[0], prompt).Raised? && o.Answered? {
        var i :| 0 <= i < |models[1..]| && models[1..][i] == o.model &&
                 generate(models[1..][i], prompt) == Generated(o.text) &&
                 forall j :: 0 <= j < i ==> generate(models[1..][j], prompt).Raised?;
        assert forall j :: 0 <= j < i + 1 ==> generate(models[j], prompt).Raised? by {
          forall j | 0 <= j < i + 1 ensures generate(models[j], prompt).Raised? {
            if j > 0 { assert models[j] == models[1..][j - 1]; }
          }
        }
        assert models[i + 1] == o.model;
      }
      if forall j :: 0 <= j < |models| ==> generate(models[j], prompt).Raised? {
        assert forall j :: 0 <= j < |models[1..]| ==> generate(models[1..][j], prompt).Raised? by {
          forall j | 0 <= j < |models[1..]| ensures generate(models[1..][j], prompt).Raised? {
            assert models[1..][j] == models[j + 1];
          }
        }
      }
    }
  }

  /**
   * The loop over `models_to_try`: `tried` lists the models called, in
   * order, each once; the loop stops at the first answer.
   */
  method TryModels(prompt: string, generate: Generator) returns (outcome: Outcome, tried: seq<string>)
    ensures outcome == FirstSuccess(Candidates, prompt, generate)
    ensures 1 <= |tried| <= |Candidates| && tried == Candidates[..|tried|]
    ensures forall j :: 0 <= j < |tried| - 1 ==> generate(tried[j], prompt).Raised?
    ensures outcome.Answered? ==> outcome.model == tried[|tried| - 1]
    ensures outcome.Exhausted? ==> tried == Candidates
  {
    outcome := Exhausted(None);
    tried := [];
    var i := 0;
    while i < |Candidates|
      invariant 0 <= i <= |Candidates|
      invariant tried == Candidates[..i]
      invariant forall j :: 0 <= j < i ==> generate(Candidates[j], prompt).Raised?
      invariant outcome == Exhausted(if i == 0 then None else Some(generate(Candidates[i - 1], prompt).error))
    {
      var model := Candidates[i];
      tried := tried + [model];
      var result := generate(model, prompt);
      if result.Generated? {
        outcome := Answered(result.text, model);
        FirstSuccessAt(Candidates, i, prompt, generate);
        return;
      }
      // a quota failure and any other failure both move on to the next model
      outcome := Exhausted(Some(result.error));
      i := i + 1;
    }
    FirstSuccessAllRaised(Candidates, prompt, generate);
  }

  // ---------------------------------------------------------------------------
  // Classifying the exception that reaches the outer handler
  // ---------------------------------------------------------------------------

  /** `'429' in e or 'RESOURCE_EXHAUSTED' in e or 'quota' in e.lower()`. */
  predicate IsQuotaError(text: string) {
    Contains(text, "429") || Contains(text, "RESOURCE_EXHAUSTED") || Contains(Lower(text), "quota")
  }

  predicate IsTimeoutError(text: string) {
    Contains(Lower(text), "timeout") || Contains(Lower(text), "timed out")
  }

  predicate IsConnectionError(text: string) {
    Contains(Lower(text), "connection")
  }

  /** The answer of the outer `except` of `chat()`, from the text of the exception alone. */
  function Classify(text: string): (e: ErrorKind)
    ensures Status(e) == 429 <==> IsQuotaError(text)
    ensures Status(e) == 429 || Status(e) == 500
    ensures e == TimedOut <==> !IsQuotaError(text) && IsTimeoutError(text)
    ensures e == ConnectionFailed <==> !IsQuotaError(text) && !IsTimeoutError(text) && IsConnectionError(text)
  {
    if IsQuotaError(text) then UpstreamQuota
    else if IsTimeoutError(text) then TimedOut
    else if IsConnectionError(text) then ConnectionFailed
    else ProcessingFailed
  }

  /** What `raise last_error if last_error else Exception(...)` hands to the outer handler. */
  const NoModelAvailable := "Nenhum modelo disponível"

  /**
   * The text the outer handler classifies when every model fails; with no
   * failure to re-raise, it is the generic 500.
   */
  function ExhaustedText(lastError: Option<string>): (t: string)
    ensures lastError.Some? ==> t == lastError.value
    ensures lastError.None? ==> Classify(t) == ProcessingFailed
  {
    NoModelAvailableIsGeneric();
    lastError.GetOr(NoModelAvailable)
  }

  /** None of the keywords the classification looks for occurs in the fallback text. */
  lemma NoModelAvailableIsGeneric()
    ensures !IsQuotaError(NoModelAvailable) && !IsTimeoutError(NoModelAvailable) && !IsConnectionError(NoModelAvailable)
  {
    FallbackTextLetters();
    var l := Lower(NoModelAvailable);
    AbsentFirstCharNotContained(NoModelAvailable, "429");
    AbsentFirstCharNotContained(NoModelAvailable, "RESOURCE_EXHAUSTED");
    AbsentFirstCharNotContained(l, "quota");
    AbsentFirstCharNotContained(l, "timeout");
    AbsentFirstCharNotContained(l, "timed out");
    AbsentFirstCharNotContained(l, "connection");
  }

  lemma FallbackTextLetters()
    ensures '4' !in NoModelAvailable && 'R' !in NoModelAvailable
    ensures var l := Lower(NoModelAvailable); 'q' !in l && 't' !in l && 'c' !in l
  {
    FallbackTextLacks();
    var l := Lower(NoModelAvailable);
    assert forall i :: 0 <= i < |l| ==> l[i] == LowerChar(NoModelAvailable[i]);
  }

  lemma FallbackTextLacks()
    ensures forall i :: 0 <= i < |NoModelAvailable| ==>
              && NoModelAvailable[i] != '4' && NoModelAvailable[i] != 'R'
              && NoModelAvailable[i] != 'q' && NoModelAvailable[i] != 'Q'
              && NoModelAvailable[i] != 't' && NoModelAvailable[i] != 'T'
              && NoModelAvailable[i] != 'c' && NoModelAvailable[i] != 'C'
  {
  }
}
