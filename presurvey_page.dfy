/**
 * The standalone pre-survey page reached by a link carrying `userID`: six ratings and one open-ended
 * answer, a validity rule, and an `isSubmitted` flag that a prior submission or a successful submit
 * raises for good.
 */
module PreSurveyPage {
  import opened Wrappers
  import Text

  datatype RatingField =
    ExpressiveAphasia | ModifyLanguage | HospitalDischarge | ShowEmpathy | UnexpectedBehavior | SimulationSkills

  /** The position of a rating in the question list. */
  function Index(field: RatingField): (i: nat)
    ensures i < RatingCount
  {
    match field
    case ExpressiveAphasia => 0
    case ModifyLanguage => 1
    case HospitalDischarge => 2
    case ShowEmpathy => 3
    case UnexpectedBehavior => 4
    case SimulationSkills => 5
  }

  const RatingCount := 6

  /** `SurveyResponse`: one number or `null` per rating, in question order, and the open-ended text. */
  datatype SurveyResponse = SurveyResponse(ratings: seq<Option<int>>, openEnded: string)

  /** Every rating `null`, the text empty. */
  function InitialResponses(): (r: SurveyResponse)
    ensures |r.ratings| == RatingCount && forall i :: 0 <= i < RatingCount ==> r.ratings[i] == None
    ensures r.openEnded == ""
  {
    SurveyResponse(seq(RatingCount, _ => None), "")
  }

  /** Every rating answered with a number other than 0, and some non-blank text. */
  function IsFormValid(r: SurveyResponse): (ok: bool)
    requires |r.ratings| == RatingCount
    ensures ok <==> (forall i :: 0 <= i < RatingCount ==> r.ratings[i].Some? && r.ratings[i].value != 0)
                    && exists i :: 0 <= i < |r.openEnded| && !Text.IsSpace(r.openEnded[i])
  {
    Text.TrimEmptyIffBlank(r.openEnded);
    (forall i :: 0 <= i < RatingCount ==> r.ratings[i] != None && r.ratings[i] != Some(0))
    && Text.Trim(r.openEnded) != ""
  }

  /** The page opens with a form that cannot be submitted. */
  lemma InitialFormInvalid()
    ensures !IsFormValid(InitialResponses())
  {
    assert InitialResponses().ratings[0] == None;
  }

  /** A rating of 0 counts as unanswered. */
  lemma ZeroRatingInvalid(r: SurveyResponse, field: RatingField)
    requires |r.ratings| == RatingCount
    ensures !IsFormValid(r.(ratings := r.ratings[Index(field) := Some(0)]))
  {
    var i := Index(field);
    assert r.(ratings := r.ratings[i := Some(0)]).ratings[i] == Some(0);
  }

  /** `getUrlParam('userID')`: a missing or empty parameter reads as `null`. */
  function UserIdParam(param: Option<string>): (r: Option<string>)
    ensures r.Some? <==> param.Some? && param.value != ""
    ensures r.Some? ==> r == param
  {
    if param.Some? && param.value != "" then param else None
  }

  /** The body posted on submit. */
  datatype Submission = Submission(answers: SurveyResponse, userID: Option<string>)

  class Page {
    var responses: SurveyResponse
    var isSubmitted: bool

    ghost predicate Valid()
      reads this
    {
      |responses.ratings| == RatingCount
    }

    constructor()
      ensures Valid() && responses == InitialResponses() && !isSubmitted
    {
      responses := InitialResponses();
      isSubmitted := false;
    }

    /** The mount effect: a prior submission found for the user marks the page submitted. */
    method SurveyLoaded(found: bool)
      modifies this
      ensures responses == old(responses)
      ensures isSubmitted == (old(isSubmitted) || found)
    {
      if found {
        isSubmitted := true;
      }
    }

    /** `handleRatingChange`: only the given rating changes. */
    method HandleRatingChange(field: RatingField, value: int)
      requires Valid()
      modifies this
      ensures Valid() && isSubmitted == old(isSubmitted)
      ensures responses.ratings[Index(field)] == Some(value)
      ensures forall i :: 0 <= i < RatingCount && i != Index(field) ==> responses.ratings[i] == old(responses.ratings[i])
      ensures responses.openEnded == old(responses.openEnded)
    {
      responses := responses.(ratings := responses.ratings[Index(field) := Some(value)]);
    }

    /** `handleTextChange`: only the open-ended answer changes. */
    method HandleTextChange(value: string)
      requires Valid()
      modifies this
      ensures Valid() && isSubmitted == old(isSubmitted)
      ensures responses == old(responses).(openEnded := value)
    {
      responses := responses.(openEnded := value);
    }

    /** `handleSubmit`: the answers and the link's user id are posted; only a successful post marks the
        page submitted, and a failure is only logged. */
    method HandleSubmit(userIdParam: Option<string>, submitOk: bool) returns (sent: Submission)
      modifies this
      ensures sent == Submission(old(responses), UserIdParam(userIdParam))
      ensures responses == old(responses)
      ensures isSubmitted == (old(isSubmitted) || submitOk)
    {
      sent := Submission(responses, UserIdParam(userIdParam));
      if submitOk {
        isSubmitted := true;
      }
    }
  }
}
