/**
 * The self-reflection form shown after each simulation level: the behaviour checklist, seven rating
 * questions, six open-ended questions (the thirteenth with option checkboxes, an "other" text and an
 * explanation), the loading of saved data, the handlers, the submit payload and the validity rule.
 * The handlers and the loading effect are the updates React applies to the component state.
 */
module SelfReflection {
  import opened Wrappers
  import opened Assoc
  import opened Json
  import Text
  import Checklist

  const Behaviors: seq<string> := [
    "Limited Verbal Output",
    "Telegraphic Speech",
    "Word-Finding Blocks (Anomia)",
    "Perseveration",
    "Communication-Related Frustration",
    "Reliance on Gestures",
    "Reduced Initiation",
    "Inconsistent Yes/No Responses"
  ]

  const Descriptions: seq<string> := [
    "Student should recognize reduced speech output and document frequency of verbal responses",
    "Student should identify short, incomplete sentences and note communication patterns",
    "Student should observe difficulty finding words and note specific examples",
    "Student should recognize repetitive responses and note when they occur",
    "Student should identify signs of frustration and document patient reactions",
    "Student should observe non-verbal communication and note gesture types used",
    "Student should recognize lack of spontaneous communication and document interaction patterns",
    "Student should identify unreliable responses and note specific questions asked"
  ]

  const DefaultItems: seq<Checklist.Item> := Checklist.Defaults(Behaviors, Descriptions)

  /** The rating questions' texts, after their numbers 1 to 7. */
  const RatingTexts: seq<string> := [
    " This session improved my confidence in interviewing clients with expressive aphasia",
    " I felt the patient's responses were realistic",
    " I was able to navigate the interaction easily",
    " This session was educational and helped me practice useful skills",
    " I feel more confident applying these skills when working with other health professionals.",
    " The simulation encouraged me to reflect on my clinical reasoning during and after the session.",
    " The simulation kept me engaged and motivated to practice new strategies."
  ]

  /** The open-ended questions' texts, after their numbers 8 to 13. */
  const OpenEndedTexts: seq<string> := [
    " Which behaviors were most challenging for you to respond to, and why?",
    " What communication strategies seemed to help the patient most?",
    " If you could redo one moment in the simulation, what would you change?",
    " How will you apply what you learned in a real clinical setting?",
    " What was the most helpful part of this session?",
    " If you have increased confidence in interviewing clients with expressive aphasia through this session, what made that happen? Which of the following helped increase your confidence? (Select all that apply)"
  ]

  /** A question's number as it opens the question: `"1."` to `"13."`. */
  function Label(n: nat): string
    requires 1 <= n < 20
  {
    if n < 10 then [DigitChar(n), '.'] else ['1', DigitChar(n - 10), '.']
  }

  function DigitChar(d: nat): char
    requires d < 10
  {
    ('0' as int + d) as char
  }

  /** The number a question opens with, read back from its first characters. */
  function NumberOf(q: string): int
    requires |q| >= 2
  {
    if q[1] == '.' then q[0] as int - '0' as int
    else 10 * (q[0] as int - '0' as int) + (q[1] as int - '0' as int)
  }

  /** The keys of the responses are the questions themselves: each one's number, then its text. */
  const RatingQuestions: seq<string> := [
    Label(1) + RatingTexts[0], Label(2) + RatingTexts[1], Label(3) + RatingTexts[2], Label(4) + RatingTexts[3],
    Label(5) + RatingTexts[4], Label(6) + RatingTexts[5], Label(7) + RatingTexts[6]
  ]

  const OpenEndedQuestions: seq<string> := [
    Label(8) + OpenEndedTexts[0], Label(9) + OpenEndedTexts[1], Label(10) + OpenEndedTexts[2],
    Label(11) + OpenEndedTexts[3], Label(12) + OpenEndedTexts[4], Question13
  ]

  const Question13 := Label(13) + OpenEndedTexts[5]

  const Question13Options: seq<string> := [
    "Realistic avatar expressions", "Practice opportunity", "Feedback from system/facilitator",
    "Realism of scenario", "Other"
  ]

  /** All thirteen questions: the seven ratings, then the six open-ended ones. */
  function Questions(): (qs: seq<string>)
    ensures |qs| == 13
    ensures forall i :: 0 <= i < 13 ==> |qs[i]| >= 2 && NumberOf(qs[i]) == i + 1
  {
    QuestionNumbers();
    RatingQuestions + OpenEndedQuestions
  }

  lemma QuestionNumbers()
    ensures forall i :: 0 <= i < 13 ==> |(RatingQuestions + OpenEndedQuestions)[i]| >= 2
                                        && NumberOf((RatingQuestions + OpenEndedQuestions)[i]) == i + 1
  {
    forall i | 0 <= i < 7 ensures |RatingQuestions[i]| >= 2 && NumberOf(RatingQuestions[i]) == i + 1 {
      LabelRead(i + 1, RatingTexts[i]);
    }
    forall i | 0 <= i < 6 ensures |OpenEndedQuestions[i]| >= 2 && NumberOf(OpenEndedQuestions[i]) == i + 8 {
      LabelRead(i + 8, OpenEndedTexts[i]);
    }
  }

  /** The number is read back from any question that opens with its label. */
  lemma LabelRead(n: nat, text: string)
    requires 1 <= n < 20
    ensures |Label(n) + text| >= 2 && NumberOf(Label(n) + text) == n
  {
    var q := Label(n) + text;
    assert q[0] == Label(n)[0] && q[1] == Label(n)[1];
  }

  /** The component state. The checkbox map and the two question-13 texts hold whatever saved data put
      there, so they are values rather than a boolean map and strings. */
  datatype ReflectionState = ReflectionState(
    checklistItems: seq<Checklist.Item>,
    midSurveyResponses: Dict<Value>,
    question13Checkboxes: Value,
    question13OtherText: Value,
    question13Explanation: Value)

  /** The `initialData` prop: absent, the older bare checklist array, or the object form. */
  datatype InitialData =
    | NoData
    | ItemArray(items: seq<Checklist.Item>)
    | SavedObject(checklistItems: Option<seq<Checklist.Item>>, midSurveyResponses: Option<Dict<Value>>)

  predicate ItemsDistinct(d: InitialData) {
    match d
    case NoData => true
    case ItemArray(items) => Checklist.AllDistinct(items)
    case SavedObject(items, _) => items.Some? ==> Checklist.AllDistinct(items.value)
  }

  /** Every rating `null`, every open-ended answer `""`. */
  function InitialResponses(): (r: Dict<Value>)
    ensures forall i :: 0 <= i < |RatingQuestions| ==> Get(r, RatingQuestions[i]) == Some(JNull)
    ensures forall i :: 0 <= i < |OpenEndedQuestions| ==> Get(r, OpenEndedQuestions[i]) == Some(JStr(""))
    ensures forall k :: k !in Questions() ==> Get(r, k) == None
  {
    var qs := Questions();
    var r := seq(13, i requires 0 <= i < 13 => (qs[i], if i < 7 then JNull else JStr("")));
    forall i, j | 0 <= i < j < 13 ensures r[i].0 != r[j].0 {
      assert r[i].0 == qs[i] && r[j].0 == qs[j];
      assert NumberOf(qs[i]) != NumberOf(qs[j]);
    }
    forall i | 0 <= i < 13 ensures Get(r, qs[i]) == Some(if i < 7 then JNull else JStr("")) {
      GetAt(r, i);
    }
    assert forall i :: 0 <= i < 7 ==> RatingQuestions[i] == qs[i];
    assert forall i :: 0 <= i < 6 ==> OpenEndedQuestions[i] == qs[i + 7];
    r
  }

  function AllUnchecked(): Value {
    JObj(seq(|Question13Options|, i requires 0 <= i < |Question13Options| => (Question13Options[i], JBool(false))))
  }

  /** The state on mount: the checklist is the prop itself when it is an array, else the defaults. */
  function InitialState(initialData: InitialData): (s: ReflectionState)
    ensures s.midSurveyResponses == InitialResponses()
  {
    ReflectionState(
      if initialData.ItemArray? then initialData.items else DefaultItems,
      InitialResponses(), AllUnchecked(), JStr(""), JStr(""))
  }

  /** A non-empty saved list merged over the defaults, else the defaults. */
  function MergedOrDefaults(items: seq<Checklist.Item>): seq<Checklist.Item>
    requires Checklist.AllDistinct(items)
  {
    if |items| > 0 then Checklist.MergeOverDefaults(DefaultItems, items) else DefaultItems
  }

  /** Saved responses replace the current ones; a saved question-13 object restores each of its three
      parts that is truthy. */
  function LoadResponses(s: ReflectionState, mid: Dict<Value>): (r: ReflectionState)
    ensures r.checklistItems == s.checklistItems && r.midSurveyResponses == mid
  {
    var s := s.(midSurveyResponses := mid);
    var q13 := Get(mid, Question13);
    if Truthy(q13) && q13.value.JObj? then
      var data := q13.value;
      var s := if Truthy(Field(data, "selectedOptions")) then s.(question13Checkboxes := Field(data, "selectedOptions").value) else s;
      var s := if Truthy(Field(data, "otherText")) then s.(question13OtherText := Field(data, "otherText").value) else s;
      if Truthy(Field(data, "explanation")) then s.(question13Explanation := Field(data, "explanation").value) else s
    else s
  }

  /** The effect run when `initialData` changes. An object without `checklistItems` changes nothing, not even
      the responses it carries. */
  function LoadInitialData(s: ReflectionState, initialData: InitialData): (r: ReflectionState)
    requires ItemsDistinct(initialData)
    ensures initialData.ItemArray? && |initialData.items| > 0 ==>
      |r.checklistItems| == |initialData.items| &&
      forall i, k :: 0 <= i < |initialData.items| ==>
        Get(r.checklistItems[i], k) == if HasKey(initialData.items[i], k) then Get(initialData.items[i], k)
                                       else Get(Checklist.DefaultAt(DefaultItems, i), k)
    ensures initialData.NoData? || (initialData.ItemArray? && initialData.items == []) ==> r.checklistItems == DefaultItems
    ensures initialData.SavedObject? && initialData.checklistItems.None? ==> r == s
  {
    match initialData
    case NoData => s.(checklistItems := DefaultItems)
    case ItemArray(items) => s.(checklistItems := MergedOrDefaults(items))
    case SavedObject(items, mid) =>
      if items.None? then s
      else
        var s := s.(checklistItems := MergedOrDefaults(items.value));
        if mid.Some? then LoadResponses(s, mid.value) else s
  }

  // ---- handlers ----

  function CheckboxChange(s: ReflectionState, index: int, checked: bool): ReflectionState {
    s.(checklistItems := Checklist.CheckboxChange(s.checklistItems, index, checked))
  }

  function NotesChange(s: ReflectionState, index: int, notes: string): ReflectionState {
    s.(checklistItems := Checklist.NotesChange(s.checklistItems, index, notes))
  }

  /** `handleRatingChange` and `handleTextChange`: one response key set, nothing else touched. */
  function ResponseChange(s: ReflectionState, field: string, value: Value): (r: ReflectionState)
    ensures r == s.(midSurveyResponses := r.midSurveyResponses)
    ensures Get(r.midSurveyResponses, field) == Some(value)
    ensures forall k :: k != field ==> Get(r.midSurveyResponses, k) == Get(s.midSurveyResponses, k)
  {
    s.(midSurveyResponses := Set(s.midSurveyResponses, field, value))
  }

  function RatingChange(s: ReflectionState, field: string, value: int): ReflectionState {
    ResponseChange(s, field, JNum(value))
  }

  function TextChange(s: ReflectionState, field: string, value: string): ReflectionState {
    ResponseChange(s, field, JStr(value))
  }

  /** `handleQuestion13CheckboxChange`: on the checkbox object, one option set. */
  function Question13CheckboxChange(s: ReflectionState, option: string, checked: bool): (r: ReflectionState)
    requires s.question13Checkboxes.JObj?
    ensures r == s.(question13Checkboxes := r.question13Checkboxes) && r.question13Checkboxes.JObj?
    ensures Get(r.question13Checkboxes.fields, option) == Some(JBool(checked))
    ensures forall k :: k != option ==> Get(r.question13Checkboxes.fields, k) == Get(s.question13Checkboxes.fields, k)
  {
    s.(question13Checkboxes := JObj(Set(s.question13Checkboxes.fields, option, JBool(checked))))
  }

  // ---- submitting ----

  datatype Submission = Submission(checklistItems: seq<Checklist.Item>, midSurveyResponses: Dict<Value>)

  function Question13Answer(s: ReflectionState): Value {
    JObj([("selectedOptions", s.question13Checkboxes), ("otherText", s.question13OtherText),
          ("explanation", s.question13Explanation)])
  }

  /** The submit payload: projected checklist items, and the responses with question 13 replaced by the
      object holding its three parts. */
  function Submit(s: ReflectionState): (sub: Submission)
    ensures sub.checklistItems == Checklist.Project(s.checklistItems) && Checklist.AllDistinct(sub.checklistItems)
    ensures Get(sub.midSurveyResponses, Question13) == Some(Question13Answer(s))
    ensures forall k :: k != Question13 ==> Get(sub.midSurveyResponses, k) == Get(s.midSurveyResponses, k)
  {
    ProjectedDistinct(s.checklistItems);
    Submission(Checklist.Project(s.checklistItems), Set(s.midSurveyResponses, Question13, Question13Answer(s)))
  }

  /** The payload as the object handed to `onSubmit`. */
  function SubmissionValue(sub: Submission): Value {
    JObj([("checklistItems", JArr(seq(|sub.checklistItems|, i requires 0 <= i < |sub.checklistItems| => JObj(sub.checklistItems[i])))),
          ("midSurveyResponses", JObj(sub.midSurveyResponses))])
  }

  // ---- validity ----

  /** `countWords(text)`: 0 for anything that is not a string. */
  function WordsOf(v: Value): nat {
    if v.JStr? then Text.CountWords(v.s) else 0
  }

  /** `String(v || "")`. */
  function AnswerText(v: Option<Value>): string {
    if Truthy(v) then ToJsString(v.value) else ""
  }

  /** `Object.values(v).some(x => x)`: an object's or array's entries, a string's characters. */
  predicate AnyChecked(v: Value) {
    match v
    case JObj(fields) => exists i :: 0 <= i < |fields| && Truthy(Some(fields[i].1))
    case JArr(items) => exists i :: 0 <= i < |items| && Truthy(Some(items[i]))
    case JStr(s) => s != ""
    case _ => false
  }

  /** Every rating is not `null` (a missing one passes). */
  predicate RatingsAnswered(responses: Dict<Value>) {
    forall i :: 0 <= i < |RatingQuestions| ==> Get(responses, RatingQuestions[i]) != Some(JNull)
  }

  /** Questions 8 to 12 have at least fifteen words each; question 13 is judged separately. */
  predicate OpenEndedAnswered(responses: Dict<Value>) {
    forall i :: 0 <= i < |OpenEndedQuestions| - 1 ==> Text.CountWords(AnswerText(Get(responses, OpenEndedQuestions[i]))) >= 15
  }

  predicate Question13Answered(s: ReflectionState) {
    AnyChecked(s.question13Checkboxes) && WordsOf(s.question13Explanation) >= 15
  }

  /** `isFormValid()`. */
  predicate IsFormValid(s: ReflectionState) {
    RatingsAnswered(s.midSurveyResponses) && OpenEndedAnswered(s.midSurveyResponses) && Question13Answered(s)
  }

  /** The validity rule, with words counted as the places where a word starts: no rating is `null`, each of
      questions 8 to 12 has at least fifteen words (a missing or falsy answer has none), some question-13
      option is ticked, and the question-13 explanation is a string of at least fifteen words. */
  lemma FormValidity(s: ReflectionState)
    ensures IsFormValid(s) <==>
      (forall i :: 0 <= i < 7 ==> Get(s.midSurveyResponses, RatingQuestions[i]) != Some(JNull))
      && (forall i :: 0 <= i < 5 ==>
            Text.WordStarts(AnswerText(Get(s.midSurveyResponses, OpenEndedQuestions[i])), true) >= 15)
      && AnyChecked(s.question13Checkboxes)
      && s.question13Explanation.JStr? && Text.WordStarts(s.question13Explanation.s, true) >= 15
  {
    RatingRule(s.midSurveyResponses);
    OpenEndedRule(s.midSurveyResponses);
    Question13Rule(s);
  }

  /** Seven rating questions, then six open questions of which question 13 is the last. */
  lemma QuestionCounts()
    ensures |RatingQuestions| == 7 && |OpenEndedQuestions| == 6
  {
  }

  lemma RatingRule(responses: Dict<Value>)
    ensures RatingsAnswered(responses) <==>
      forall i :: 0 <= i < 7 ==> Get(responses, RatingQuestions[i]) != Some(JNull)
  {
    QuestionCounts();
  }

  lemma Question13Rule(s: ReflectionState)
    ensures Question13Answered(s) <==>
      AnyChecked(s.question13Checkboxes)
      && s.question13Explanation.JStr? && Text.WordStarts(s.question13Explanation.s, true) >= 15
  {
    if s.question13Explanation.JStr? {
      Text.CountWordsIsWordStarts(s.question13Explanation.s);
    }
  }

  lemma OpenEndedRule(responses: Dict<Value>)
    ensures OpenEndedAnswered(responses) <==>
      forall i :: 0 <= i < 5 ==> Text.WordStarts(AnswerText(Get(responses, OpenEndedQuestions[i])), true) >= 15
  {
    QuestionCounts();
    forall i | 0 <= i < 5 {
      Text.CountWordsIsWordStarts(AnswerText(Get(responses, OpenEndedQuestions[i])));
    }
  }

  /** A freshly mounted form is never valid: every rating starts as `null`. */
  lemma InitialStateInvalid(initialData: InitialData)
    ensures !IsFormValid(InitialState(initialData))
  {
    assert Get(InitialState(initialData).midSurveyResponses, RatingQuestions[0]) == Some(JNull);
  }

  /** Only the response keys change the verdict on the responses: question 13's own entry is ignored. */
  lemma ValidityIgnoresQuestion13Entry(s: ReflectionState, v: Value)
    ensures IsFormValid(ResponseChange(s, Question13, v)) == IsFormValid(s)
  {
    var responses := ResponseChange(s, Question13, v).midSurveyResponses;
    OthersAreNotQuestion13();
    assert RatingsAnswered(responses) == RatingsAnswered(s.midSurveyResponses) by {
      forall i | 0 <= i < |RatingQuestions|
        ensures Get(responses, RatingQuestions[i]) == Get(s.midSurveyResponses, RatingQuestions[i]) {
      }
    }
    assert OpenEndedAnswered(responses) == OpenEndedAnswered(s.midSurveyResponses) by {
      forall i | 0 <= i < |OpenEndedQuestions| - 1
        ensures Get(responses, OpenEndedQuestions[i]) == Get(s.midSurveyResponses, OpenEndedQuestions[i]) {
      }
    }
  }

  /** Question 13 is none of the rating questions and none of questions 8 to 12. */
  lemma OthersAreNotQuestion13()
    ensures forall i :: 0 <= i < |RatingQuestions| ==> RatingQuestions[i] != Question13
    ensures forall i :: 0 <= i < |OpenEndedQuestions| - 1 ==> OpenEndedQuestions[i] != Question13
  {
    var qs := Questions();
    assert qs[12] == Question13;
    forall i | 0 <= i < 7 ensures RatingQuestions[i] != Question13 {
      assert RatingQuestions[i] == qs[i];
    }
    forall i | 0 <= i < 5 ensures OpenEndedQuestions[i] != Question13 {
      assert OpenEndedQuestions[i] == qs[i + 7];
    }
  }

  /** The state after mounting the form on a submission of `s`: the submitted responses; the checkboxes
      and the explanation back as they were, the checkboxes only when they were truthy. */
  lemma ReloadedState(s: ReflectionState)
    requires s.question13Explanation.JStr?
    ensures var sub := Submit(s);
      var d := SavedObject(Some(sub.checklistItems), Some(sub.midSurveyResponses));
      var r := LoadInitialData(InitialState(d), d);
      && r.midSurveyResponses == sub.midSurveyResponses
      && r.question13Checkboxes == (if Truthy(Some(s.question13Checkboxes)) then s.question13Checkboxes else AllUnchecked())
      && r.question13Explanation == s.question13Explanation
  {
    var sub := Submit(s);
    var d := SavedObject(Some(sub.checklistItems), Some(sub.midSurveyResponses));
    var merged := InitialState(d).(checklistItems := MergedOrDefaults(sub.checklistItems));
    assert LoadInitialData(InitialState(d), d) == LoadResponses(merged, sub.midSurveyResponses);
    LoadedAnswer(merged, sub.midSurveyResponses, s);
  }

  /** Loading responses whose question-13 entry is the answer submitted from `s`. */
  lemma LoadedAnswer(s0: ReflectionState, mid: Dict<Value>, s: ReflectionState)
    requires Get(mid, Question13) == Some(Question13Answer(s))
    requires s.question13Explanation.JStr? && s0.question13Explanation == JStr("")
    ensures LoadResponses(s0, mid).question13Checkboxes ==
      if Truthy(Some(s.question13Checkboxes)) then s.question13Checkboxes else s0.question13Checkboxes
    ensures LoadResponses(s0, mid).question13Explanation == s.question13Explanation
  {
    Question13Parts(s);
  }

  /** The submitted checklist items each carry their keys once. */
  lemma ProjectedDistinct(items: seq<Checklist.Item>)
    ensures Checklist.AllDistinct(Checklist.Project(items))
  {
    var projected := Checklist.Project(items);
    forall i | 0 <= i < |projected| ensures DistinctKeys(projected[i]) {
      assert projected[i] == Checklist.ProjectItem(items[i]);
    }
  }

  /** The three parts of the submitted question-13 answer, read back. */
  lemma Question13Parts(s: ReflectionState)
    ensures Field(Question13Answer(s), "selectedOptions") == Some(s.question13Checkboxes)
    ensures Field(Question13Answer(s), "otherText") == Some(s.question13OtherText)
    ensures Field(Question13Answer(s), "explanation") == Some(s.question13Explanation)
  {
    var fields := Question13Answer(s).fields;
    GetAt(fields, 1);
    GetAt(fields, 2);
  }

  /** Submitting and mounting the form again on the payload gives the same responses to the other
      questions, the same explanation and the same verdict. */
  lemma ReloadKeepsAnswers(s: ReflectionState)
    requires s.question13Explanation.JStr?
    ensures var sub := Submit(s);
      var d := SavedObject(Some(sub.checklistItems), Some(sub.midSurveyResponses));
      var r := LoadInitialData(InitialState(d), d);
      && (forall k :: k != Question13 ==> Get(r.midSurveyResponses, k) == Get(s.midSurveyResponses, k))
      && r.question13Explanation == s.question13Explanation
      && IsFormValid(r) == IsFormValid(s)
  {
    var sub := Submit(s);
    var d := SavedObject(Some(sub.checklistItems), Some(sub.midSurveyResponses));
    var r := LoadInitialData(InitialState(d), d);
    ReloadedState(s);
    SameVerdict(s, r);
  }

  /** A state holding the submitted responses, the same explanation and the checkboxes (or, when they were
      falsy, none checked) is judged as `s` was. */
  lemma SameVerdict(s: ReflectionState, r: ReflectionState)
    requires r.midSurveyResponses == Submit(s).midSurveyResponses
    requires r.question13Explanation == s.question13Explanation
    requires r.question13Checkboxes == (if Truthy(Some(s.question13Checkboxes)) then s.question13Checkboxes else AllUnchecked())
    ensures IsFormValid(r) == IsFormValid(s)
  {
    ValidityIgnoresQuestion13Entry(s, Question13Answer(s));
    assert r.midSurveyResponses == ResponseChange(s, Question13, Question13Answer(s)).midSurveyResponses;
    if !Truthy(Some(s.question13Checkboxes)) {
      assert !AnyChecked(s.question13Checkboxes);
      assert !AnyChecked(r.question13Checkboxes);
    }
    assert Question13Answered(r) == Question13Answered(s);
  }

  /** The reloaded checklist submits the same payload again, as long as the list was not empty. */
  lemma ReloadKeepsChecklist(s: ReflectionState)
    requires |s.checklistItems| > 0
    requires forall i :: 0 <= i < |s.checklistItems| ==> Checklist.Complete(s.checklistItems[i])
    ensures var sub := Submit(s);
      var d := SavedObject(Some(sub.checklistItems), Some(sub.midSurveyResponses));
      Submit(LoadInitialData(InitialState(d), d)).checklistItems == sub.checklistItems
  {
    var sub := Submit(s);
    var d := SavedObject(Some(sub.checklistItems), Some(sub.midSurveyResponses));
    var r := LoadInitialData(InitialState(d), d);
    assert r.checklistItems == Checklist.MergeOverDefaults(DefaultItems, sub.checklistItems);
    Checklist.ReloadKeepsPayload(DefaultItems, s.checklistItems);
  }
}
