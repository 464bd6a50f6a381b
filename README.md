# Nurse Town — a Dafny model of the step machine, the forms and the Lambda handlers

Nurse Town is a web application for nursing students. A participant works through eight steps in a fixed
order: informed consent, pre-survey, simulation tutorial, three simulation levels, post-survey and
completion. The React front end records progress in a Redux slice and shows it in a sidebar. Survey and
self-reflection forms collect answers. A set of AWS Lambda handlers stores those answers in DynamoDB, signs
participants in through Cognito, creates accounts, and hands out pre-signed S3 links to the desktop
simulator.

This project restates that logic in Dafny and proves what it promises:

- **Step machine** (`reducer.dfy`, `sidebar.dfy`). `Reducer.StepStore` is a class whose fields are the
  slice's state: a map from user id to per-user progress, and the current user id. Every reducer is a method
  proved equal to the pure transition `Reducer.Reduce`. The completion loop is a `while` loop proved against
  `CompletedBelow`. The lemmas show that:
  - completion is always a prefix of the step list;
  - completion is monotone, and other users are never touched;
  - unknown paths are no-ops;
  - `currentStep` follows `getNextStep`;
  - the selectors agree with each other.

  The sidebar flags are derived from the selected state. The clickable steps are exactly the completed
  prefix plus the first incomplete step.
- **Forms** (`presurvey_step.dfy`, `self_reflection.dfy`, `checklist.dfy`, `simulation_checklist.dfy`,
  `presurvey_page.dfy`, `admin_control.dfy`, `text.dfy`).
  - The validity rules, including the "at least 15 words" counting of `countWords`, are proved equal to an
    independent character-by-character word count.
  - Each field handler changes only its own key or index.
  - Saved checklists are merged over the defaults.
  - Submit payloads are projections of the state.
  - A submitted checklist reloads to the same payload.
  - The two page components with local state (`PreSurveyPage.Page`, `AdminControl.Page`) are classes.
- **Backend** (`utils.dfy`, `http.dfy`, `database.dfy`, `lambda_common.dfy` and one file per handler).
  - The JSON number transforms, with their round trip.
  - The HTTP response builders.
  - The `SET` update-expression serialiser, and item preparation and stamping.
  - For each handler:
    - the routing;
    - the validation;
    - the error-to-status mapping;
    - the exact DynamoDB, Cognito and S3 requests it issues;
    - what it answers.
  - The login rule from `custom:currentCompletedStep` to a simulation level.
  - The password generator: its loops, and an in-place Fisher–Yates shuffle on an `array<char>`.

Foreign calls are parameters:

- `JSON.parse` is a function `string -> Option<Value>`.
- The clock, `randomUUID` and `Math.random` are given values (`now`, `newId`, and `random: nat -> real` with
  values in [0, 1)).
- Each DynamoDB, Cognito or S3 call is given its reply: an item, nothing, or a thrown error with its name.
- A handler returns an outcome: its HTTP response, together with the list of SDK commands it sent.

JavaScript objects are ordered association lists (`Assoc.Dict`), with JavaScript's assignment semantics:
an existing key is replaced in place and a new key is appended.

Some behaviour of the code, as proved here:

- The admin page posts `{email, role}`, but the account-creation handler reads `username`. Every
  registration from that page is therefore refused with 400, and the page shows the "Invalid information"
  message (`CognitoUserHandler.AdminFormIsRefused`).
- When an existing record lacks `createdAt`, the upsert handlers fail with 500, because the put carries an
  `undefined` attribute (`Lambda.Stamp`, `storable` false).
- The auth, account and download handlers answer malformed JSON with 500, not 400. The simulation-data
  handler also maps "Invalid" errors to 500 (`SimulationDataHandler.InvalidJsonIsServerError`).
- A number placed directly inside an array comes back from storage as a string
  (`Utils.NumberInArrayStaysString`).
- The level check in the POST handlers is strict: the string `"1"` is refused (`DebriefHandler.LevelMustBeNumber`).
- The progress percentage is not clamped: eight completed steps read 114 (`Reducer.AllCompleteReads114`).
- The two components' default checklists differ in their descriptions but submit the same payload
  (`SimulationChecklist.DefaultsSubmitAlike`).
- `setCurrentCompletedStep` sets `currentStep` from any payload, so `currentStep` need not be the first
  incomplete step (`Reducer.SettersTouchOnlyTheirFields`).
- `completeStep` stores its payload verbatim as `currentCompletedStep`: the leading slash is kept
  (`Reducer.CompleteStepEffect`).
- `!currentUserId` treats an empty user id as "no user" (`Reducer.ActiveUser`).
- The GET handlers read the level with `parseInt` and no radix, so `?simulationLevel=0x2` selects level 2 and
  `?simulationLevel=0x` has no key and answers 500 (`Lambda.HexLevelKey`).

## Model

| member | source | states |
|---|---|---|
| Reducer.InitialSteps | src/reducer.tsx:33-42 | eight steps, each with its fixed path and name, none completed |
| Reducer.InitialUserState | src/reducer.tsx:45-51 | a fresh user state is well formed and has completed nothing |
| Reducer.StepIndex | src/reducer.tsx:54-58 | the result is the first step whose path without its leading character equals the target without an optional leading slash; none means no step matches |
| Reducer.StepTailsDistinct | src/reducer.tsx:33-42 | the eight paths stay distinct once their leading slash is dropped |
| Reducer.StepIndexOfPath | src/reducer.tsx:54-58 | each step's path is found at its own index, with or without the leading slash |
| Reducer.StepIndexOfPathIn | src/reducer.tsx:54-58 | the same holds in any user's step list whose paths are the fixed ones |
| Reducer.NextStep | src/reducer.tsx:61-77 | the result is always a step path; null, empty or unknown input gives the first step |
| Reducer.NextStepOfStep | src/reducer.tsx:61-77 | a known step (with or without slash) gives its successor, and the last step gives itself |
| Reducer.CompletedBelow | src/reducer.tsx:86-91 | exactly the steps below n or already completed end up completed; newly completed steps share one timestamp; the rest are unchanged |
| Reducer.MarkCompleted | src/reducer.tsx:86-91 | the loop over the steps computes CompletedBelow |
| Reducer.CompletedBelowIdempotent | src/reducer.tsx:86-91 | completing the same prefix twice changes nothing more, not even timestamps |
| Reducer.CompletedBelowKeepsWellFormed | src/reducer.tsx:86-91 | completing a prefix keeps completion a prefix and completedAt present exactly on completed steps |
| Reducer.ActiveUser | src/reducer.tsx:125 | there is an active user iff the current id is set, non-empty and has a state |
| Reducer.ApplyKeepsWellFormed | src/reducer.tsx:121-182 | every per-user action keeps the user's state well formed |
| Reducer.ReduceKeepsValid | src/reducer.tsx:108-183 | every action keeps every user's state well formed |
| Reducer.ReduceIsMonotone | src/reducer.tsx:108-183 | no action removes a user or changes a completed step |
| Reducer.ReduceIsolatesUsers | src/reducer.tsx:108-183 | setCurrentUser keeps existing states; other actions touch only the active user's state |
| Reducer.SetCurrentUserEffect | src/reducer.tsx:110-118 | the user becomes current, with a fresh state only if they had none |
| Reducer.CompleteStepNoOp | src/reducer.tsx:121-141 | with no active user or an unknown path, completeStep and autoCompletePreviousSteps change nothing |
| Reducer.CompleteStepEffect | src/reducer.tsx:80-96 | steps up to the target become completed at one timestamp, completed ones keep theirs, later ones are unchanged, currentCompletedStep is the payload verbatim, currentStep its successor |
| Reducer.AutoCompleteEffect | src/reducer.tsx:132-152 | only steps strictly before the target are completed; the target, later steps and every other field are unchanged |
| Reducer.SettersTouchOnlyTheirFields | src/reducer.tsx:155-182 | setCurrentCompletedStep sets that field and currentStep from getNextStep; the survey setters set only their own field |
| Reducer.SelectCurrentUserState | src/reducer.tsx:202-210 | the selected state exists iff there is an active user, and is that user's |
| Reducer.CompletedOfFilters | src/reducer.tsx:227-232 | the completed steps are exactly the listed steps that are completed |
| Reducer.CompletedOfPrefix | src/reducer.tsx:227-232 | for a prefix-completed list the completed steps are the prefix itself |
| Reducer.PathsOf | src/reducer.tsx:234-239 | the paths in the same order |
| Reducer.CompletedPathsArePrefix | src/reducer.tsx:234-239 | the completed paths of a well-formed state are the first Frontier step paths |
| Reducer.FindByPath | src/reducer.tsx:244 | a step is found iff one has exactly that path, and the found step has it |
| Reducer.SelectStepByPath | src/reducer.tsx:241-246 | nothing is found without a user |
| Reducer.SelectIsStepCompleted | src/reducer.tsx:248-253 | false without a user |
| Reducer.FindCompletedIffListed | src/reducer.tsx:248-253 | the found step is completed iff its path is among the completed paths |
| Reducer.IsStepCompletedIffListed | src/reducer.tsx:248-253 | selectIsStepCompleted agrees with selectCompletedStepPaths |
| Reducer.Percentage | src/reducer.tsx:261 | the result is completed over total minus one, times 100, rounded half up; with a single step there is no finite result |
| Reducer.SelectProgressPercentage | src/reducer.tsx:255-263 | 0 without a user |
| Reducer.ProgressOfFrontier | src/reducer.tsx:255-263 | the percentage is that of the completed prefix's length over seven |
| Reducer.AllCompleteReads114 | src/reducer.tsx:255-263 | all eight steps completed gives 114, not 100 |
| Reducer.SelectHasPreSurvey | src/reducer.tsx:273-278 | true iff there is a user with a pre-survey |
| Reducer.SelectHasPostSurvey | src/reducer.tsx:288-293 | true iff there is a user with a post-survey |
| Reducer.StepStore.constructor | src/reducer.tsx:99-102 | no users and no current user, a valid state |
| Reducer.StepStore.SetCurrentUser | src/reducer.tsx:110-118 | the new state is the transition of the old one, and validity is kept |
| Reducer.StepStore.CompleteStep | src/reducer.tsx:121-129 | the new state is the transition of the old one, and validity is kept |
| Reducer.StepStore.AutoCompletePreviousSteps | src/reducer.tsx:132-152 | the new state is the transition of the old one, and validity is kept |
| Reducer.StepStore.SetCurrentCompletedStep | src/reducer.tsx:155-164 | the new state is the transition of the old one, and validity is kept |
| Reducer.StepStore.SetPreSurvey | src/reducer.tsx:167-173 | the new state is the transition of the old one, and validity is kept |
| Reducer.StepStore.SetPostSurvey | src/reducer.tsx:176-182 | the new state is the transition of the old one, and validity is kept |
| SideBar.NextStepToComplete | src/MainApp/SideBar/index.tsx:43 | the first step whose path is not completed, or none when all are |
| SideBar.OnClick | src/MainApp/SideBar/index.tsx:55-57 | navigation happens iff the step is clickable, and goes to its path |
| SideBar.ActiveIsFirstIncomplete | src/MainApp/SideBar/index.tsx:43-44 | a step is active iff it is incomplete and every earlier step is completed |
| SideBar.AtMostOneActive | src/MainApp/SideBar/index.tsx:43-44 | two active steps are the same step |
| SideBar.NoneActiveWhenAllCompleted | src/MainApp/SideBar/index.tsx:43-44 | no step is active once every step is completed |
| SideBar.ClickableIsPrefixPlusOne | src/MainApp/SideBar/index.tsx:36-44 | with the first k paths completed, steps up to k are clickable and step k is the active one |
| SideBar.SidebarOverStore | src/MainApp/SideBar/index.tsx:36-44 | over a well-formed store state: completed below the frontier, clickable up to it, active exactly at it |
| PreSurveyStep.SetAnswer | src/MainApp/StepContents/PreSurvey/index.tsx:67-89 | the named key gets the value and every other key is unchanged |
| PreSurveyStep.FormValidity | src/MainApp/StepContents/PreSurvey/index.tsx:156-202 | valid iff the ten section-1 answers are present, non-null and non-empty, the six ratings present and non-null, and the open answer a string of at least 15 words by an independent count |
| PreSurveyStep.InitialResponsesInvalid | src/MainApp/StepContents/PreSurvey/index.tsx:32 | the empty initial responses are invalid |
| PreSurveyStep.ClearingSection1Invalidates | src/MainApp/StepContents/PreSurvey/index.tsx:171-176 | setting any section-1 answer to null or empty makes the form invalid |
| PreSurveyStep.ClearingRatingInvalidates | src/MainApp/StepContents/PreSurvey/index.tsx:179-183 | clearing any rating to null makes the form invalid |
| PreSurveyStep.AnyRatingKeepsValid | src/MainApp/StepContents/PreSurvey/index.tsx:179-183 | any number, 0 included, keeps a valid form valid |
| PreSurveyStep.ShortAnswerInvalidates | src/MainApp/StepContents/PreSurvey/index.tsx:194-201 | an open answer of fewer than 15 words makes the form invalid |
| PreSurveyStep.SubmitEffects | src/MainApp/StepContents/PreSurvey/index.tsx:91-119 | nothing without a user; the POST comes first, then the attribute update; dispatches and navigation come after both; completeStep is dispatched iff both succeed |
| PreSurveyStep.HandleSubmit | src/MainApp/StepContents/PreSurvey/index.tsx:91-119 | the effects are SubmitEffects; the store takes setPreSurvey then completeStep when both calls succeed and is unchanged otherwise |
| PreSurveyStep.DispatchSubmitted | src/MainApp/StepContents/PreSurvey/index.tsx:113-114 | the store becomes setPreSurvey then completeStep("/pre-survey") applied to the old state, and stays valid |
| PreSurveyStep.SubmitAdvancesToTutorial | src/MainApp/StepContents/PreSurvey/index.tsx:112-115 | after a successful submit the first two steps are completed, the survey is stored, the current step is the tutorial and other users are untouched |
| PreSurveyStep.SavingKeepsUser | src/MainApp/StepContents/PreSurvey/index.tsx:113 | setPreSurvey stores the answers and keeps the state valid and the same user active |
| PreSurveyStep.CompletingPreSurvey | src/MainApp/StepContents/PreSurvey/index.tsx:114 | completeStep("/pre-survey") completes the first two steps and moves to the tutorial, keeping the stored survey |
| Text.TrimStart | src/MainApp/StepContents/PreSurvey/index.tsx:186-192 | the result is a suffix that does not start with whitespace, and only whitespace was dropped |
| Text.TrimEnd | src/MainApp/StepContents/PreSurvey/index.tsx:186-192 | the result is a prefix that does not end with whitespace, and only whitespace was dropped |
| Text.CountWordsIsWordStarts | src/MainApp/StepContents/PreSurvey/index.tsx:186-192 | trim, split on whitespace runs and drop empty parts counts exactly the word starts of the text |
| Text.TrimEmptyIffBlank | src/PreSurvey/index.tsx:108 | the trimmed text is empty iff every character is whitespace |
| Text.ContainsChar | src/AdminControl/index.tsx:85 | a one-character substring occurs iff the character does |
| SelfReflection.Questions | src/shared/SelfReflection.tsx:97-114 | thirteen questions, the i-th labelled with its number i |
| SelfReflection.InitialResponses | src/shared/SelfReflection.tsx:119-133 | ratings start null, open answers empty, and no other key is present |
| SelfReflection.InitialState | src/shared/SelfReflection.tsx:91-151 | the responses start as InitialResponses |
| SelfReflection.LoadResponses | src/shared/SelfReflection.tsx:194-213 | saved responses replace the answers and leave the checklist alone |
| SelfReflection.LoadInitialData | src/shared/SelfReflection.tsx:165-219 | a non-empty saved list keeps its length, each item over the default at its index; no data or an empty list gives the defaults; an object without a checklist changes nothing |
| SelfReflection.ResponseChange | src/shared/SelfReflection.tsx:235-253 | only the named answer changes |
| SelfReflection.Question13CheckboxChange | src/shared/SelfReflection.tsx:255-260 | only the named option changes |
| SelfReflection.Submit | src/shared/SelfReflection.tsx:262-283 | the checklist is projected to its three fields; question 13 becomes the object of checkboxes, other text and explanation; every other answer is copied |
| SelfReflection.Question13Parts | src/shared/SelfReflection.tsx:262-283 | the submitted question-13 object carries the three parts |
| SelfReflection.FormValidity | src/shared/SelfReflection.tsx:291-309 | valid iff the seven ratings are non-null, questions 8 to 12 have at least 15 words, a question-13 box is checked and the explanation has at least 15 words |
| SelfReflection.InitialStateInvalid | src/shared/SelfReflection.tsx:293-295 | a fresh form is invalid |
| SelfReflection.ValidityIgnoresQuestion13Entry | src/shared/SelfReflection.tsx:297-301 | the question-13 entry among the responses does not affect validity |
| SelfReflection.ReloadedState | src/shared/SelfReflection.tsx:165-219 | reloading a submission restores the responses, the checkboxes when truthy, and the explanation |
| SelfReflection.ReloadKeepsAnswers | src/shared/SelfReflection.tsx:165-219 | a reloaded submission has the same answers and the same validity |
| SelfReflection.ReloadKeepsChecklist | src/shared/SelfReflection.tsx:179-192 | a reloaded non-empty checklist submits the same payload again |
| Checklist.DefaultItem | src/shared/SimulationChecklist.tsx:11-60 | a default item has all submitted fields and distinct keys |
| Checklist.Defaults | src/shared/SimulationChecklist.tsx:11-60 | one default item per behaviour, in order |
| Checklist.DescriptionsNotSubmitted | src/shared/SimulationChecklist.tsx:106-110 | descriptions do not affect the submitted payload |
| Checklist.MergeOverDefaults | src/shared/SimulationChecklist.tsx:76-79 | same length as the saved list; each key comes from the saved item if present, else from the default at that index |
| Checklist.SetAt | src/shared/SimulationChecklist.tsx:86-100 | only the item at the index changes, and in it only the given key; the length is kept |
| Checklist.HandlersKeepComplete | src/shared/SimulationChecklist.tsx:86-100 | the checkbox and notes handlers keep every item's submitted fields present |
| Checklist.ProjectItem | src/shared/SimulationChecklist.tsx:106-110 | the projection keeps exactly observedBehavior, completed and notes |
| Checklist.Project | src/shared/SimulationChecklist.tsx:106-110 | same length and order, each item projected |
| Checklist.ReloadKeepsPayload | src/shared/SimulationChecklist.tsx:73-110 | merging a submitted payload over any defaults projects back to the same payload |
| SimulationChecklist.InitialItems | src/shared/SimulationChecklist.tsx:67-69 | the given data if any, else the defaults |
| SimulationChecklist.LoadItems | src/shared/SimulationChecklist.tsx:73-84 | a non-empty list is merged index-wise over the defaults; absent or empty data gives the defaults |
| SimulationChecklist.EmptyReloadsDefaults | src/shared/SimulationChecklist.tsx:73-84 | an empty submission reloads as the eight defaults |
| SimulationChecklist.ReloadRoundTrip | src/shared/SimulationChecklist.tsx:73-110 | a submitted non-empty checklist reloads to the same payload |
| SimulationChecklist.DefaultsSubmitAlike | src/shared/SimulationChecklist.tsx:11-60 | the two components' defaults differ in descriptions but submit the same payload |
| PreSurveyPage.InitialResponses | src/PreSurvey/index.tsx:17-25 | every rating null, open answer empty |
| PreSurveyPage.IsFormValid | src/PreSurvey/index.tsx:104-110 | valid iff every rating is present and not 0 and the open answer has a non-whitespace character |
| PreSurveyPage.InitialFormInvalid | src/PreSurvey/index.tsx:17-25 | the page starts invalid |
| PreSurveyPage.ZeroRatingInvalid | src/PreSurvey/index.tsx:105-107 | a rating of 0 makes the form invalid |
| PreSurveyPage.UserIdParam | src/PreSurvey/index.tsx:42-44 | an absent or empty parameter reads as null |
| PreSurveyPage.Page.constructor | src/PreSurvey/index.tsx:17-27 | initial responses, not submitted |
| PreSurveyPage.Page.SurveyLoaded | src/PreSurvey/index.tsx:30-40 | a found survey sets the page submitted; the flag never goes back |
| PreSurveyPage.Page.HandleRatingChange | src/PreSurvey/index.tsx:46-51 | only the given rating changes |
| PreSurveyPage.Page.HandleTextChange | src/PreSurvey/index.tsx:53-58 | only the open answer changes |
| PreSurveyPage.Page.HandleSubmit | src/PreSurvey/index.tsx:60-75 | the answers and the user id are sent; the page is submitted after success, and the flag never goes back |
| AdminClient.RegisterUser | src/AdminControl/client.tsx:11-60 | success iff the server answered with data, carrying its username and password; 409, 400 and 500 have fixed messages; other statuses use the server message or a fallback; no answer gives the network message |
| AdminClient.FailureMessageTruthy | src/AdminControl/client.tsx:23-59 | every failure carries a non-empty message |
| AdminControl.IsFormValid | src/AdminControl/index.tsx:84-90 | valid iff the email contains '@', a role is chosen, and "other" comes with a non-blank custom role |
| AdminControl.SubmittedRole | src/AdminControl/index.tsx:54-57 | the custom role for "other", else the role |
| AdminControl.ValidFormSendsRole | src/AdminControl/index.tsx:54-57 | a valid form never sends an empty role |
| AdminControl.Page.constructor | src/AdminControl/index.tsx:19-27 | empty form, not submitted, no response, not loading |
| AdminControl.Page.HandleEmailChange | src/AdminControl/index.tsx:29-34 | only the email changes |
| AdminControl.Page.HandleRoleChange | src/AdminControl/index.tsx:36-42 | the role is set, and the custom role is cleared unless the role is "other" |
| AdminControl.Page.HandleCustomRoleChange | src/AdminControl/index.tsx:44-49 | only the custom role changes |
| AdminControl.Page.HandleSubmit | src/AdminControl/index.tsx:51-77 | the email and mapped role are sent; the response is the client's mapping or the unexpected-error failure; afterwards submitted and not loading, form kept |
| AdminControl.Page.HandleBackToForm | src/AdminControl/index.tsx:79-82 | not submitted, no response, the form kept |
| Utils.StringifyNumbers | amplify/functions/shared/utils.ts:12-27 | no number is left; each number becomes its decimal string; shape, lengths and keys are kept; other leaves are unchanged |
| Utils.ParseNumbers | amplify/functions/shared/utils.ts:35-53 | shape, lengths and keys are kept; a string under a key other than openEnded becomes its number when it spells one; strings in arrays and leaves are unchanged |
| Utils.RoundTrip | amplify/functions/shared/utils.ts:12-53 | parsing undoes stringifying for values whose numbers sit under keys other than openEnded and whose strings do not spell numbers |
| Utils.NumberInArrayStaysString | amplify/functions/shared/utils.ts:36-38 | a number directly inside an array comes back as a string |
| Utils.RangeCheckReadsNumbers | amplify/functions/shared/utils.ts:62-65 | an integer passes iff it is within the bounds, as a number or as its decimal string; null, "" and false read as 0, true as 1; an object never passes |
| Json.StringToNumberOfInt | amplify/functions/shared/utils.ts:44-45 | Number() reads back every integer's decimal string |
| Decimal.NatToString | amplify/functions/shared/utils.ts:23-25 | a non-empty digit string without leading zero |
| Decimal.ParseDecimal | amplify/functions/shared/utils.ts:44 | a number iff the text is an optionally negative digit string |
| Decimal.IntToStringRoundTrip | amplify/functions/shared/utils.ts:23-25 | parsing an integer's string gives the integer |
| Decimal.IntToStringInjective | amplify/functions/shared/utils.ts:23-25 | distinct integers have distinct strings |
| Http.CreateResponse | amplify/functions/shared/http.ts:37-47 | the status and body as given; headers are the CORS headers with the extra headers taking precedence |
| Http.SuccessResponse | amplify/functions/shared/http.ts:54-56 | status 200 with the data |
| Http.CreatedResponse | amplify/functions/shared/http.ts:63-65 | status 201 with the data |
| Http.BadRequestResponse | amplify/functions/shared/http.ts:72 | status 400 with the message under error |
| Http.ConflictResponse | amplify/functions/shared/http.ts:78 | status 409 with the message under error |
| Http.NotFoundResponse | amplify/functions/shared/http.ts:84 | status 404 with the message under error |
| Http.MethodNotAllowedResponse | amplify/functions/shared/http.ts:90-100 | status 405; an Allow header joining the methods with a comma and space is present iff there are methods |
| Http.ServerErrorResponse | amplify/functions/shared/http.ts:108-123 | status 500 with the message; details are present iff in development with an error |
| Http.ServerError | amplify/functions/shared/http.ts:108-123 | status 500 with the message and no details |
| Http.OptionsResponse | amplify/functions/shared/http.ts:128-130 | status 200, empty body, CORS headers |
| Http.ParseJsonBody | amplify/functions/shared/http.ts:138-148 | a missing or empty body and unparsable text give their two errors; otherwise the parsed value |
| Http.DefinedEntriesGet | amplify/functions/shared/http.ts:155-168 | a key reads its value iff it was present with a defined value |
| Http.GetQueryParams | amplify/functions/shared/http.ts:155-168 | no parameters give an empty dictionary; otherwise the loop keeps exactly the defined entries |
| Database.GetItem | amplify/functions/shared/database.ts:26-46 | without a table name nothing is sent and the call fails; otherwise the get is sent and the item, none, or the fixed error results |
| Database.PutItem | amplify/functions/shared/database.ts:54-72 | the same guard, then the put with the fixed error |
| Database.DeleteItem | amplify/functions/shared/database.ts:121-135 | no guard: the delete is sent, with the fixed error |
| Database.TransactWriteItems | amplify/functions/shared/database.ts:143-160 | the same guard, then the transaction with the fixed error |
| Database.UpdateItem | amplify/functions/shared/database.ts:81-113 | no guard; the SET expression and both placeholder maps are built from the updates |
| Database.UpdateResolves | amplify/functions/shared/database.ts:87-99 | clause i names the i-th placeholders, which resolve to the i-th key and value |
| Database.PlaceholdersDistinct | amplify/functions/shared/database.ts:87-99 | the placeholder maps have distinct keys |
| Database.NoStrayPlaceholders | amplify/functions/shared/database.ts:87-99 | no placeholder beyond the updates exists |
| Database.TokensInjective | amplify/functions/shared/database.ts:87-99 | distinct indices give distinct placeholders |
| Database.TwoUpdatesExpression | amplify/functions/shared/database.ts:87-105 | two updates serialise to "SET #attr0 = :val0, #attr1 = :val1" |
| Database.PrepareItemForStorage | amplify/functions/shared/database.ts:185-201 | userID and timestamp come first, data fields override them, and id is the new id iff requested |
| Database.Stamped | amplify/functions/shared/database.ts:190-194 | userID and timestamp first, overridden by the data |
| Database.SetId | amplify/functions/shared/database.ts:196-198 | id is set and nothing else changes |
| Lambda.Payload | amplify/functions/debrief-function/handler.ts:95-96 | the parsed body's fields; parse errors and a null payload are errors |
| Lambda.Rest | amplify/functions/pre-survey-function/handler.ts:89 | the fields other than the named ones |
| Lambda.KeyList | amplify/functions/pre-survey-function/handler.ts:145 | the keys in order |
| Lambda.Caught | amplify/functions/debrief-function/handler.ts:148-156 | a message containing "Invalid" gives 400 with it, anything else the 500 fallback |
| Lambda.CaughtMessages | amplify/functions/debrief-function/handler.ts:148-156 | malformed JSON gives 400, while a missing body, a null payload and database errors give 500 |
| Lambda.CaughtPayload | amplify/functions/debrief-function/handler.ts:148-156 | a payload error is 400 exactly when the JSON is malformed |
| Lambda.ParseIntOfInt | amplify/functions/debrief-function/handler.ts:69-72 | parseInt reads back an integer's string |
| Lambda.ParseIntStopsAtNonDigit | amplify/functions/debrief-function/handler.ts:69-72 | parseInt reads a decimal number up to the first non-digit, except that "0" followed by x or X starts the radix-16 form |
| Lambda.ParseIntReadsHex | amplify/functions/debrief-function/handler.ts:69-72 | with no radix, an optional sign then 0x or 0X reads the hexadecimal digits up to the first non-hex character, negated after "-" |
| Lambda.ParseIntEmptyHexIsNaN | amplify/functions/debrief-function/handler.ts:69-72 | 0x with no hexadecimal digit after it is NaN |
| Lambda.HexLevelKey | amplify/functions/debrief-function/handler.ts:69-72 | the GET key for "0x2" is level 2, and "0x" gives no key |
| Lambda.LevelKey | amplify/functions/debrief-function/handler.ts:69-72 | a key exists iff the level parses, holding the user and parsed level |
| Lambda.LevelKeyOfLevel | amplify/functions/debrief-function/handler.ts:107-110 | a valid level's string leads to the same key as the posted level |
| Lambda.GetLevelRecord | amplify/functions/debrief-function/handler.ts:58-88 | missing user or level give 400; 200 iff both are present, the level parses and the record exists; the answer is that record |
| Lambda.SavedLevelIsRead | amplify/functions/debrief-function/handler.ts:58-88 | a stored record is returned for its user and level |
| Lambda.RecordFound | amplify/functions/debrief-function/handler.ts:67-78 | a GET with both parameters and a parsable level reads the record under the user and numeric level and answers 200 with it |
| Lambda.Stamp | amplify/functions/debrief-function/handler.ts:128-137 | createdAt from the existing record or now, updatedAt now; storable iff there is no record or it has createdAt |
| Lambda.PostedLevelKey | amplify/functions/debrief-function/handler.ts:107-110 | the key is the user and level |
| Lambda.SetCompositeKey | amplify/functions/debrief-function/handler.ts:125-126 | userID and simulationLevel set, nothing else changed |
| Lambda.GetParsed | amplify/functions/pre-survey-function/handler.ts:75 | each field of the parsed item is the field parsed |
| DebriefHandler.Handle | amplify/functions/debrief-function/handler.ts:22-53 | OPTIONS first, then the table check, GET and POST dispatch, else 405 |
| DebriefHandler.HandleSave | amplify/functions/debrief-function/handler.ts:93-157 | parse errors mapped; missing fields and a bad level give 400; otherwise the store step |
| DebriefHandler.Store | amplify/functions/debrief-function/handler.ts:106-147 | lookup, then a put of the stamped debrief; the answer carries createdAt and updatedAt; errors give 500 |
| DebriefHandler.PrepareDebriefItem | amplify/functions/debrief-function/handler.ts:115-126 | the item holds exactly the key, the answers as sent and the timestamp |
| DebriefHandler.BuildItem | amplify/functions/debrief-function/handler.ts:115-137 | the stored debrief, storable iff the stamping can be done |
| DebriefHandler.SavedDebriefIsRead | amplify/functions/debrief-function/handler.ts:58-88 | a saved debrief's answers are what the GET returns |
| DebriefHandler.LevelMustBeNumber | amplify/functions/debrief-function/handler.ts:102-104 | "1", 0 and 4 are refused as levels, 2 accepted |
| ChatHistoryHandler.Handle | amplify/functions/chat-history-function/handler.ts:22-53 | OPTIONS first, then the table check, GET and POST dispatch, else 405 |
| ChatHistoryHandler.HandleSave | amplify/functions/chat-history-function/handler.ts:93-137 | parse errors mapped; missing fields and a bad level give 400; otherwise one put and the timestamp answered |
| ChatHistoryHandler.PrepareChatItem | amplify/functions/chat-history-function/handler.ts:106-118 | the item holds exactly the key, the history and the timestamp |
| ChatHistoryHandler.SavedHistoryIsRead | amplify/functions/chat-history-function/handler.ts:58-88 | a saved history is what the GET returns |
| SimulationDataHandler.Handle | amplify/functions/simulation-data-function/handler.ts:22-53 | OPTIONS first, then the table check, GET and POST dispatch, else 405 |
| SimulationDataHandler.HandleSave | amplify/functions/simulation-data-function/handler.ts:93-172 | missing fields and a bad level give 400; every caught error gives 500; otherwise the store step |
| SimulationDataHandler.Store | amplify/functions/simulation-data-function/handler.ts:106-162 | lookup, then a put of the stamped run with extra fields; the answer lists the extra keys |
| SimulationDataHandler.BaseItem | amplify/functions/simulation-data-function/handler.ts:115-119 | every payload field except userID is carried over |
| SimulationDataHandler.BaseField | amplify/functions/simulation-data-function/handler.ts:115-119 | per key: userID is absent from the base item, every other key reads as in the payload (the named fields first, the rest spread over them) |
| SimulationDataHandler.PrepareRunItem | amplify/functions/simulation-data-function/handler.ts:114-130 | the payload fields plus userID and timestamp |
| SimulationDataHandler.BuildItem | amplify/functions/simulation-data-function/handler.ts:114-151 | the stored run, storable iff the stamping can be done |
| SimulationDataHandler.InvalidJsonIsServerError | amplify/functions/simulation-data-function/handler.ts:163-171 | malformed JSON gives 500 here though the shared mapping would give 400 |
| PreSurveyHandler.Handle | amplify/functions/pre-survey-function/handler.ts:24-55 | OPTIONS first, then the table check, GET and POST dispatch, else 405 |
| Lambda.GetSurveyRecord | amplify/functions/pre-survey-function/handler.ts:60-81 | a missing user gives 400; otherwise one get by userID; 200 iff the record exists, answered with its numeric strings parsed; 404 with the handler's message when absent, 500 when the read throws |
| PreSurveyHandler.HandleSubmit | amplify/functions/pre-survey-function/handler.ts:86-156 | missing fields give 400; "Invalid" errors 400, others 500; otherwise a lookup, a put of the stamped survey and the extra keys answered |
| PreSurveyHandler.Store | amplify/functions/pre-survey-function/handler.ts:94-155 | a lookup by userID, then a put of the stamped survey; the answer carries createdAt, updatedAt and the extra keys; a failed read or write, or an existing record without createdAt, gives 500 |
| PreSurveyHandler.PrepareSurveyItem | amplify/functions/pre-survey-function/handler.ts:100-114 | answers stringified, extra fields kept, a fresh id |
| PreSurveyHandler.BuildItem | amplify/functions/pre-survey-function/handler.ts:100-135 | the stored survey, storable iff the stamping can be done |
| PreSurveyHandler.ResubmitKeepsCreatedAt | amplify/functions/pre-survey-function/handler.ts:116-136 | a resubmission keeps the first createdAt and refreshes updatedAt |
| PreSurveyHandler.AnswersReadBack | amplify/functions/pre-survey-function/handler.ts:68-76 | the GET returns the stored item parsed, and its answers are those submitted |
| PostSurveyHandler.Handle | amplify/functions/post-survey-function/handler.ts:24-55 | OPTIONS first, then the table check, GET and POST dispatch, else 405 |
| PostSurveyHandler.HandleSubmit | amplify/functions/post-survey-function/handler.ts:86-122 | missing fields give 400; otherwise one put, answered with its timestamp |
| PostSurveyHandler.PrepareSurveyItem | amplify/functions/post-survey-function/handler.ts:95-103 | exactly userID, timestamp, stringified answers and id |
| PostSurveyHandler.ExtraFieldsDropped | amplify/functions/post-survey-function/handler.ts:89-103 | the stored item does not depend on extra payload fields |
| DownloadUrlHandler.Handle | amplify/functions/download-url-function/handler.ts:22-48 | OPTIONS first, then the bucket check, POST dispatch, else 405; nothing is signed otherwise |
| DownloadUrlHandler.GetDownloadUrl | amplify/functions/download-url-function/handler.ts:53-106 | a missing or unsupported os gives 400; a URL is requested iff the os is windows or mac; 200 iff signed |
| DownloadUrlHandler.RequestFor | amplify/functions/download-url-function/handler.ts:68-81 | the installer under the system's folder, for one hour, as a download |
| DownloadUrlHandler.PresignError | amplify/functions/download-url-function/handler.ts:90-100 | missing bucket and missing key have their own messages, anything else the generic one, all 500 |
| DownloadUrlHandler.OsKeysDiffer | amplify/functions/download-url-function/handler.ts:68-81 | the two systems get different keys with the same file name |
| DownloadUrlHandler.InvalidJsonIsServerError | amplify/functions/download-url-function/handler.ts:53-106 | malformed JSON gives 500 |
| AuthHandler.Handle | amplify/functions/auth-function/handler.ts:22-59 | OPTIONS first, then the configuration check; login, signout and other POST paths; 405 otherwise; Cognito is asked only on login |
| AuthHandler.HandleLogin | amplify/functions/auth-function/handler.ts:64-160 | a login succeeds only with a token and a user record after both calls |
| AuthHandler.FindAttribute | amplify/functions/auth-function/handler.ts:99-101 | the first attribute of that name |
| AuthHandler.CurrentStep | amplify/functions/auth-function/handler.ts:99-103 | the attribute's value, defaulting to simulation-tutorial |
| AuthHandler.LoginLevel | amplify/functions/auth-function/handler.ts:110-127 | a level in 1..3, refused exactly for level-3-simulation and post-survey |
| AuthHandler.DecideLevel | amplify/functions/auth-function/handler.ts:106-127 | the switch sets the level and allows login as LoginLevel says |
| AuthHandler.AuthError | amplify/functions/auth-function/handler.ts:145-153 | the three known error names give 400 with their messages, anything else 500 |
| AuthHandler.HandleSignout | amplify/functions/auth-function/handler.ts:165-179 | 200 with the message and timestamp |
| AuthHandler.LoginFollowsStepList | amplify/functions/auth-function/handler.ts:110-127 | the step after each simulation level logs in to that level |
| AuthHandler.DefaultLevelIsOne | amplify/functions/auth-function/handler.ts:103-127 | no attribute, pre-survey or informed-consent log in to level 1 |
| CognitoUserHandler.Handle | amplify/functions/cognito-user-function/handler.ts:20-51 | OPTIONS first, then the pool check, GET and POST dispatch, else 405 |
| CognitoUserHandler.GeneratePassword | amplify/functions/cognito-user-function/handler.ts:57-87 | length max(length, 3), only allowed characters, at least one letter, digit and symbol; a permutation of the unshuffled string |
| CognitoUserHandler.GuaranteedChars | amplify/functions/cognito-user-function/handler.ts:63-65 | the three guaranteed characters are a letter, a digit and a symbol |
| CognitoUserHandler.ShuffleKeepsPolicy | amplify/functions/cognito-user-function/handler.ts:77-86 | any permutation of a string of the right length, drawn from the alphabet and starting with a letter, a digit and a symbol, meets the password policy |
| CognitoUserHandler.Pick | amplify/functions/cognito-user-function/handler.ts:63-65 | a random index is in range |
| CognitoUserHandler.RandomChars | amplify/functions/cognito-user-function/handler.ts:72-74 | the requested number of allowed characters |
| CognitoUserHandler.ShuffleInPlace | amplify/functions/cognito-user-function/handler.ts:81-84 | the array holds a permutation of its contents |
| CognitoUserHandler.HandleCreateUser | amplify/functions/cognito-user-function/handler.ts:92-163 | a missing username gives 400; an existing user 409; otherwise create, set password and answer with email and password |
| CognitoUserHandler.EmailInjective | amplify/functions/cognito-user-function/handler.ts:102 | distinct usernames give distinct emails |
| CognitoUserHandler.AdminFormIsRefused | amplify/functions/cognito-user-function/handler.ts:95-98 | the admin page's payload has no username, is refused with 400 and shows the invalid-information message |
| CognitoUserHandler.GetUser | amplify/functions/cognito-user-function/handler.ts:168-204 | a missing username gives 400; errors 500; 200 iff the user is found, with their folded attributes |
| CognitoUserHandler.DescribedAttributes | amplify/functions/cognito-user-function/handler.ts:191-196 | each shown attribute is the last non-empty value of that name |
| CognitoUserHandler.FoldKeepsLast | amplify/functions/cognito-user-function/handler.ts:191-196 | the fold keeps the last kept value per name |
| CognitoUserHandler.FoldKeepsDistinct | amplify/functions/cognito-user-function/handler.ts:191-196 | the folded map has distinct keys |

## Left out

- JSX rendering, styling, hover state, the evaluation page, infrastructure code, routing and the network
  clients without logic: presentation and wiring only.
- JavaScript numbers are modelled as integers: floating point values, `-0` and the precision limit of
  `parseInt` on long digit strings are not modelled.
- Json.StringToNumber: after trimming white space (a blank string reads 0, as in `Number()`) it reads only an
  optional `-` followed by decimal digits. The forms that `Number()` also accepts read as NaN here: a leading
  `+` ("+5"), a decimal point ("1.0", ".5", "5."), an exponent ("1e2"), `Infinity` with or without a sign,
  and the `0x`, `0o` and `0b` prefixes ("0x1F").
- `JSON.parse`, `new Date().toISOString()`, `randomUUID`, `Math.random`, and the DynamoDB, Cognito and S3
  SDK calls are parameters. Their own behaviour is not modelled.
- Console logging is not modelled: it has no effect on state or responses.
- `async` sequencing and concurrency are not modelled. Each handler is one sequential run with given
  replies.
- reselect memoisation is not modelled. Selectors are plain functions.
- JavaScript's ordering of integer-like object keys is not modelled. Objects keep insertion order.
- Reducer.CompletedOf: its own contract only bounds the length. What it computes is stated by
  `Reducer.CompletedOfFilters` and `Reducer.CompletedOfPrefix`.
- Text.DropSpaces, Database.Clauses, Database.AttributeNames and Database.AttributeValues: their own
  contracts only give lengths. Their content is stated by `Text.CountWordsIsWordStarts`,
  `Database.UpdateResolves`, `Database.PlaceholdersDistinct` and `Database.NoStrayPlaceholders`.
- The pre-survey step page's initial load of a saved survey and its Redux copy are not modelled: they are
  a fetch followed by `setPreSurvey`, which `Reducer.SettersTouchOnlyTheirFields` covers.
- The self-reflection and checklist components' `isSubmitting` flag is not modelled: it is set and reset
  around a synchronous call.
- The outer `catch` of the download-URL and account handlers is not modelled: every error they can meet
  is caught inside, so it cannot be reached.
