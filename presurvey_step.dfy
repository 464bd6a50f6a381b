/**
 * The pre-survey step inside the main app: the answers kept as one record keyed by question, the
 * handlers that set one answer, the form's validity rule, and the order of effects when it is
 * submitted (the survey POST, the user-attribute update, then the store dispatches and navigation).
 */
module PreSurveyStep {
  import opened Wrappers
  import opened Assoc
  import opened Json
  import Text
  import Reducer

  /** `responses`: answers keyed by question, each a number, `null` or a string. */
  type Responses = Dict<Value>

  /** Section 1 (demographics): every key is required. */
  const Section1Fields: seq<string> := [
    "age", "gender", "race", "year", "coursework", "clinical_experience_aphasia",
    "standardized_patient_simulations", "online_simulations", "helpfulness_previous_simulations",
    "frequency_games"
  ]

  /** Section 2: the six rating questions. */
  const Section2Fields: seq<string> := [
    "I feel confident interviewing a client with expressive aphasia",
    "I feel prepared to modify my language for clients with communication challenges",
    "I can interpret and apply hospital discharge documentation effectively",
    "I know how to show empathy while gathering clinical information",
    "I feel confident responding to unexpected client behavior during sessions",
    "I believe this simulation will help me build skills I can apply in real clinical settings"
  ]

  const OpenEndedField := "What are you hoping to gain from this simulation experience?"

  /** The three groups of keys are told apart by their lengths. */
  lemma FieldsDistinct()
    ensures forall i, j :: 0 <= i < |Section1Fields| && 0 <= j < |Section2Fields| ==> Section1Fields[i] != Section2Fields[j]
    ensures forall i :: 0 <= i < |Section1Fields| ==> Section1Fields[i] != OpenEndedField
    ensures forall j :: 0 <= j < |Section2Fields| ==> Section2Fields[j] != OpenEndedField
  {
    assert |OpenEndedField| == 60;
    assert forall j :: 0 <= j < |Section2Fields| ==> |Section2Fields[j]| > 60;
    assert forall i :: 0 <= i < |Section1Fields| ==> |Section1Fields[i]| < 60;
  }

  // ---- handlers ----

  /** `handleRatingChange`, `handleTextChange` and `handleNumberChange`: `{...prev, [field]: value}`. */
  function SetAnswer(responses: Responses, field: string, value: Value): (r: Responses)
    ensures Get(r, field) == Some(value)
    ensures forall k :: k != field ==> Get(r, k) == Get(responses, k)
  {
    Set(responses, field, value)
  }

  function RatingChange(responses: Responses, field: string, value: int): Responses {
    SetAnswer(responses, field, JNum(value))
  }

  function TextChange(responses: Responses, field: string, value: string): Responses {
    SetAnswer(responses, field, JStr(value))
  }

  /** A cleared number input stores `null`. */
  function NumberChange(responses: Responses, field: string, value: Option<int>): Responses {
    SetAnswer(responses, field, if value.Some? then JNum(value.value) else JNull)
  }

  // ---- validity ----

  /** Section 1: each key present and neither `null` nor `""`. */
  predicate Section1Valid(responses: Responses) {
    forall i :: 0 <= i < |Section1Fields| ==>
      Get(responses, Section1Fields[i]).Some? && Get(responses, Section1Fields[i]).value !in {JNull, JStr("")}
  }

  /** Section 2 ratings: each present and not `null`; 0 and even an empty string pass. */
  predicate Section2RatingValid(responses: Responses) {
    forall j :: 0 <= j < |Section2Fields| ==>
      Get(responses, Section2Fields[j]).Some? && Get(responses, Section2Fields[j]).value != JNull
  }

  /** The open-ended answer is a string of at least fifteen words. */
  predicate OpenEndedValid(responses: Responses) {
    var v := Get(responses, OpenEndedField);
    v.Some? && v.value.JStr? && Text.CountWords(v.value.s) >= 15
  }

  /** `isFormValid()`. A string with fifteen words is truthy, so the source's truthiness test adds nothing. */
  predicate IsFormValid(responses: Responses) {
    Section1Valid(responses) && Section2RatingValid(responses) && OpenEndedValid(responses)
  }

  /** The validity rule, with the words of the open-ended answer counted as the places where a word
      starts: every section-1 answer present and neither `null` nor `""`, every rating present and not
      `null`, and an open-ended answer that is a string with at least fifteen words. */
  lemma FormValidity(responses: Responses)
    ensures IsFormValid(responses) <==>
      (forall i :: 0 <= i < |Section1Fields| ==> Get(responses, Section1Fields[i]) !in {None, Some(JNull), Some(JStr(""))})
      && (forall j :: 0 <= j < |Section2Fields| ==> Get(responses, Section2Fields[j]) !in {None, Some(JNull)})
      && Get(responses, OpenEndedField).Some? && Get(responses, OpenEndedField).value.JStr?
      && Text.WordStarts(Get(responses, OpenEndedField).value.s, true) >= 15
  {
    Section1Rule(responses);
    Section2Rule(responses);
    var v := Get(responses, OpenEndedField);
    if v.Some? && v.value.JStr? {
      Text.CountWordsIsWordStarts(v.value.s);
    }
  }

  lemma Section1Rule(responses: Responses)
    ensures Section1Valid(responses) <==>
      forall i :: 0 <= i < |Section1Fields| ==> Get(responses, Section1Fields[i]) !in {None, Some(JNull), Some(JStr(""))}
  {
    forall i | 0 <= i < |Section1Fields|
      ensures (Get(responses, Section1Fields[i]).Some? && Get(responses, Section1Fields[i]).value !in {JNull, JStr("")})
              <==> Get(responses, Section1Fields[i]) !in {None, Some(JNull), Some(JStr(""))} {
    }
  }

  lemma Section2Rule(responses: Responses)
    ensures Section2RatingValid(responses) <==>
      forall j :: 0 <= j < |Section2Fields| ==> Get(responses, Section2Fields[j]) !in {None, Some(JNull)}
  {
    forall j | 0 <= j < |Section2Fields|
      ensures (Get(responses, Section2Fields[j]).Some? && Get(responses, Section2Fields[j]).value != JNull)
              <==> Get(responses, Section2Fields[j]) !in {None, Some(JNull)} {
    }
  }

  /** The empty record the page starts with is not valid. */
  lemma InitialResponsesInvalid()
    ensures !IsFormValid([])
  {
  }

  /** Clearing any section-1 answer, or setting it to `null`, makes the form invalid. */
  lemma ClearingSection1Invalidates(responses: Responses, i: nat, cleared: Value)
    requires i < |Section1Fields| && cleared in {JNull, JStr("")}
    ensures !IsFormValid(SetAnswer(responses, Section1Fields[i], cleared))
  {
  }

  /** Clearing a rating makes the form invalid. */
  lemma ClearingRatingInvalidates(responses: Responses, j: nat)
    requires j < |Section2Fields|
    ensures !IsFormValid(NumberChange(responses, Section2Fields[j], None))
  {
  }

  /** A rating of 0 is accepted: setting any rating, 0 included, keeps a valid form valid. */
  lemma AnyRatingKeepsValid(responses: Responses, j: nat, value: int)
    requires j < |Section2Fields| && IsFormValid(responses)
    ensures IsFormValid(RatingChange(responses, Section2Fields[j], value))
  {
    FieldsDistinct();
    ReplacingRatingKeepsValid(responses, RatingChange(responses, Section2Fields[j], value), Section2Fields[j]);
  }

  /** Replacing one answer outside section 1 and the open-ended question by a value that is not `null`
      keeps a valid form valid. */
  lemma ReplacingRatingKeepsValid(responses: Responses, r: Responses, f: string)
    requires IsFormValid(responses)
    requires forall k :: k != f ==> Get(r, k) == Get(responses, k)
    requires Get(r, f).Some? && Get(r, f).value != JNull
    requires forall i :: 0 <= i < |Section1Fields| ==> Section1Fields[i] != f
    requires OpenEndedField != f
    ensures IsFormValid(r)
  {
    Section1Kept(responses, r, f);
    Section2Kept(responses, r, f);
    assert Get(r, OpenEndedField) == Get(responses, OpenEndedField);
  }

  lemma Section1Kept(responses: Responses, r: Responses, f: string)
    requires Section1Valid(responses)
    requires forall k :: k != f ==> Get(r, k) == Get(responses, k)
    requires forall i :: 0 <= i < |Section1Fields| ==> Section1Fields[i] != f
    ensures Section1Valid(r)
  {
    forall i | 0 <= i < |Section1Fields| ensures Get(r, Section1Fields[i]) == Get(responses, Section1Fields[i]) {
    }
  }

  lemma Section2Kept(responses: Responses, r: Responses, f: string)
    requires Section2RatingValid(responses)
    requires forall k :: k != f ==> Get(r, k) == Get(responses, k)
    requires Get(r, f).Some? && Get(r, f).value != JNull
    ensures Section2RatingValid(r)
  {
    forall k | 0 <= k < |Section2Fields|
      ensures Get(r, Section2Fields[k]).Some? && Get(r, Section2Fields[k]).value != JNull {
      if Section2Fields[k] != f {
        assert Get(r, Section2Fields[k]) == Get(responses, Section2Fields[k]);
      }
    }
  }

  /** An answer with fewer than fifteen words makes the form invalid, whatever else is filled in. */
  lemma ShortAnswerInvalidates(responses: Responses, answer: string)
    requires Text.CountWords(answer) < 15
    ensures !IsFormValid(TextChange(responses, OpenEndedField, answer))
  {
  }

  // ---- submitting ----

  /** What `handleSubmit` does outside the component, in order. */
  datatype Effect =
    | SubmitSurvey(userID: string, answers: Responses)
    | UpdateCompletedStepAttribute(value: string)
    | DispatchSetPreSurvey(survey: Responses)
    | DispatchCompleteStep(stepPath: string)
    | Navigate(path: string)

  predicate IsDispatch(e: Effect) {
    e.DispatchSetPreSurvey? || e.DispatchCompleteStep?
  }

  predicate SignedIn(username: Option<string>) {
    username.Some? && username.value != ""
  }

  /** The effects of `handleSubmit`, given whether the survey POST and the attribute update succeed: a
      failure ends the chain, and the error is only logged. */
  function SubmitEffects(username: Option<string>, responses: Responses, submitOk: bool, updateOk: bool): (effects: seq<Effect>)
    ensures !SignedIn(username) ==> effects == []
    ensures DispatchCompleteStep("/pre-survey") in effects <==> SignedIn(username) && submitOk && updateOk
    ensures forall i :: 0 <= i < |effects| && (IsDispatch(effects[i]) || effects[i].Navigate?) ==>
      2 <= i && effects[0] == SubmitSurvey(username.value, responses) && effects[1] == UpdateCompletedStepAttribute("pre-survey")
    ensures SignedIn(username) ==> |effects| > 0 && effects[0] == SubmitSurvey(username.value, responses)
  {
    if !SignedIn(username) then []
    else
      var post := SubmitSurvey(username.value, responses);
      if !submitOk then [post]
      else if !updateOk then [post, UpdateCompletedStepAttribute("pre-survey")]
      else [post, UpdateCompletedStepAttribute("pre-survey"), DispatchSetPreSurvey(responses),
            DispatchCompleteStep("/pre-survey"), Navigate("/simulation-tutorial")]
  }

  /** `handleSubmit` against the store: the dispatches happen only after both calls succeed. */
  method HandleSubmit(store: Reducer.StepStore, username: Option<string>, responses: Responses,
                      submitOk: bool, updateOk: bool, now: string) returns (effects: seq<Effect>)
    modifies store
    ensures effects == SubmitEffects(username, responses, submitOk, updateOk)
    ensures DispatchCompleteStep("/pre-survey") in effects ==>
      store.State() == Reducer.Reduce(Reducer.Reduce(old(store.State()), Reducer.SetPreSurvey(responses), now),
                                      Reducer.CompleteStep("/pre-survey"), now)
    ensures DispatchCompleteStep("/pre-survey") !in effects ==> store.State() == old(store.State())
    ensures old(Reducer.ValidState(store.State())) ==> Reducer.ValidState(store.State())
  {
    effects := [];
    if !SignedIn(username) {
      return;
    }
    effects := effects + [SubmitSurvey(username.value, responses)];
    if !submitOk {
      return;
    }
    effects := effects + [UpdateCompletedStepAttribute("pre-survey")];
    if !updateOk {
      return;
    }
    DispatchSubmitted(store, responses, now);
    effects := effects + [DispatchSetPreSurvey(responses), DispatchCompleteStep("/pre-survey"),
                          Navigate("/simulation-tutorial")];
  }

  /** The two dispatches of a successful submit: the answers are stored, then the step is completed. */
  method DispatchSubmitted(store: Reducer.StepStore, responses: Responses, now: string)
    modifies store
    ensures store.State() == Reducer.Reduce(Reducer.Reduce(old(store.State()), Reducer.SetPreSurvey(responses), now),
                                            Reducer.CompleteStep("/pre-survey"), now)
    ensures old(Reducer.ValidState(store.State())) ==> Reducer.ValidState(store.State())
  {
    store.SetPreSurvey(responses);
    store.CompleteStep("/pre-survey", now);
  }

  /** After a successful submit the signed-in user has the consent and pre-survey steps complete, the
      answers saved, and a current step equal to the page the submit navigates to. */
  lemma SubmitAdvancesToTutorial(s: Reducer.StepState, responses: Responses, now: string)
    requires Reducer.ValidState(s) && Reducer.ActiveUser(s).Some?
    ensures var id := Reducer.ActiveUser(s).value;
      var after := Reducer.Reduce(Reducer.Reduce(s, Reducer.SetPreSurvey(responses), now), Reducer.CompleteStep("/pre-survey"), now);
      var u := after.userStates[id];
      && u.steps[0].isCompleted && u.steps[1].isCompleted
      && u.preSurvey == Some(responses)
      && u.currentCompletedStep == Some("/pre-survey")
      && u.currentStep == "/simulation-tutorial"
      && (forall other :: other in s.userStates && other != id ==> other in after.userStates && after.userStates[other] == s.userStates[other])
  {
    var id := Reducer.ActiveUser(s).value;
    var mid := Reducer.Reduce(s, Reducer.SetPreSurvey(responses), now);
    SavingKeepsUser(s, responses, now);
    CompletingPreSurvey(mid, now);
    Reducer.ReduceIsolatesUsers(s, Reducer.SetPreSurvey(responses), now);
    Reducer.ReduceIsolatesUsers(mid, Reducer.CompleteStep("/pre-survey"), now);
  }

  /** Saving the answers keeps the state valid and the same user active. */
  lemma SavingKeepsUser(s: Reducer.StepState, responses: Responses, now: string)
    requires Reducer.ValidState(s) && Reducer.ActiveUser(s).Some?
    ensures var mid := Reducer.Reduce(s, Reducer.SetPreSurvey(responses), now);
      && Reducer.ValidState(mid) && Reducer.ActiveUser(mid) == Reducer.ActiveUser(s)
      && mid.userStates[Reducer.ActiveUser(s).value].preSurvey == Some(responses)
  {
    Reducer.SettersTouchOnlyTheirFields(s, None, responses, now);
    Reducer.ReduceIsolatesUsers(s, Reducer.SetPreSurvey(responses), now);
    Reducer.ReduceKeepsValid(s, Reducer.SetPreSurvey(responses), now);
  }

  /** Completing the pre-survey step completes the first two steps and moves on to the tutorial, keeping
      the saved answers. */
  lemma CompletingPreSurvey(s: Reducer.StepState, now: string)
    requires Reducer.ValidState(s) && Reducer.ActiveUser(s).Some?
    ensures var id := Reducer.ActiveUser(s).value;
      var u := Reducer.Reduce(s, Reducer.CompleteStep("/pre-survey"), now).userStates[id];
      && u.steps[0].isCompleted && u.steps[1].isCompleted
      && u.preSurvey == s.userStates[id].preSurvey
      && u.currentCompletedStep == Some("/pre-survey")
      && u.currentStep == "/simulation-tutorial"
  {
    var id := Reducer.ActiveUser(s).value;
    var before := s.userStates[id];
    assert Reducer.WellFormed(before);
    assert Reducer.StepPaths[1] == "/pre-survey" && Reducer.StepPaths[2] == "/simulation-tutorial";
    Reducer.StepIndexOfPathIn(before.steps, 1, true);
    assert Reducer.StepIndex(before.steps, "/pre-survey") == Some(1);
    Reducer.NextStepOfStep(1, true);
    Reducer.CompleteStepEffect(s, "/pre-survey", now);
  }
}
