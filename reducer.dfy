/**
 * The step-progression slice of the front end's Redux store: per-user progress through a fixed list of
 * eight steps, the actions that complete steps, and the selectors the pages read.
 * Each action is a method of `StepStore` that updates its fields in place; `Reduce` is the slice reducer
 * as a function of the old state, and the methods are proved to agree with it.
 */
module Reducer {
  import opened Wrappers
  import opened Assoc
  import opened Json

  datatype Step = Step(path: string, name: string, isCompleted: bool, completedAt: Option<string>)

  /** A saved survey answer set, `PreSurveyResponse`. */
  type Survey = Dict<Value>

  datatype UserStepState = UserStepState(
    steps: seq<Step>,
    currentCompletedStep: Option<string>,
    currentStep: string,
    preSurvey: Option<Survey>,
    postSurvey: Option<Survey>)

  datatype StepState = StepState(userStates: map<string, UserStepState>, currentUserId: Option<string>)

  const StepPaths: seq<string> := [
    "/informed-consent", "/pre-survey", "/simulation-tutorial", "/level-1-simulation",
    "/level-2-simulation", "/level-3-simulation", "/post-survey", "/completion"
  ]

  const StepNames: seq<string> := [
    "Informed Consent", "Pre-Survey", "Simulation Tutorial", "Level 1 Simulation",
    "Level 2 Simulation", "Level 3 Simulation", "Post-Survey", "Completion"
  ]

  const StepCount := 8

  /** `initialSteps`: every step incomplete, no completion time. */
  function InitialSteps(): (steps: seq<Step>)
    ensures |steps| == StepCount
    ensures forall i :: 0 <= i < StepCount ==> steps[i] == Step(StepPaths[i], StepNames[i], false, None)
  {
    seq(StepCount, i requires 0 <= i < StepCount => Step(StepPaths[i], StepNames[i], false, None))
  }

  /** `createInitialUserState()`. */
  function InitialUserState(): (u: UserStepState)
    ensures WellFormed(u) && Frontier(u.steps) == 0
  {
    UserStepState(InitialSteps(), None, StepPaths[0], None, None)
  }

  // ---- path lookup ----

  /** `s.slice(1)`. */
  function Drop1(s: string): string {
    if s == [] then s else s[1..]
  }

  /** The path with one leading slash removed, if it has one. */
  function StripSlash(s: string): string {
    if |s| > 0 && s[0] == '/' then s[1..] else s
  }

  /** `getStepIndex(steps, stepPath)`: the first step whose path, without its first character, equals the
      input without a leading slash; None plays -1. */
  function StepIndex(steps: seq<Step>, stepPath: string): (r: Option<nat>)
    ensures r.Some? ==> r.value < |steps| && Drop1(steps[r.value].path) == StripSlash(stepPath)
    ensures forall j :: 0 <= j < |steps| && (r.None? || j < r.value) ==> Drop1(steps[j].path) != StripSlash(stepPath)
  {
    FindFrom(steps, StripSlash(stepPath), 0)
  }

  function FindFrom(steps: seq<Step>, clean: string, i: nat): (r: Option<nat>)
    requires i <= |steps|
    requires forall j :: 0 <= j < i ==> Drop1(steps[j].path) != clean
    ensures r.Some? ==> i <= r.value < |steps| && Drop1(steps[r.value].path) == clean
    ensures forall j :: 0 <= j < |steps| && (r.None? || j < r.value) ==> Drop1(steps[j].path) != clean
    decreases |steps| - i
  {
    if i == |steps| then None
    else if Drop1(steps[i].path) == clean then Some(i)
    else FindFrom(steps, clean, i + 1)
  }

  /** No two step paths agree once their first character is dropped. */
  lemma StepTailsDistinct()
    ensures forall i, j :: 0 <= i < j < StepCount ==> Drop1(StepPaths[i]) != Drop1(StepPaths[j])
  {
    TailSignatures();
    forall i, j | 0 <= i < j < StepCount ensures Drop1(StepPaths[i]) != Drop1(StepPaths[j]) {
      assert Signatures[i] != Signatures[j];
    }
  }

  /** Three characters that already tell the step paths apart once the slash is dropped. */
  function Signature(tail: string): (char, char, char)
    requires |tail| >= 7
  {
    (tail[0], tail[1], tail[6])
  }

  const Signatures: seq<(char, char, char)> := [
    ('i', 'n', 'e'), ('p', 'r', 'r'), ('s', 'i', 't'), ('l', 'e', '1'),
    ('l', 'e', '2'), ('l', 'e', '3'), ('p', 'o', 'u'), ('c', 'o', 't')
  ]

  lemma TailSignatures()
    ensures forall k :: 0 <= k < StepCount ==> |Drop1(StepPaths[k])| >= 7 && Signature(Drop1(StepPaths[k])) == Signatures[k]
  {
  }

  /** Each step path is found at its own index, written with or without its leading slash. */
  lemma StepIndexOfPath(k: nat, withSlash: bool)
    requires k < StepCount
    ensures StepIndex(InitialSteps(), if withSlash then StepPaths[k] else StepPaths[k][1..]) == Some(k)
  {
    var steps := InitialSteps();
    var p := if withSlash then StepPaths[k] else StepPaths[k][1..];
    assert steps[k].path == StepPaths[k];
    assert StripSlash(p) == Drop1(steps[k].path);
    var r := StepIndex(steps, p);
    assert r.Some?;
    assert steps[r.value].path == StepPaths[r.value];
    StepTailsDistinct();
  }

  /** The same holds in every user's list, whose paths are the step paths in order. */
  lemma StepIndexOfPathIn(steps: seq<Step>, k: nat, withSlash: bool)
    requires |steps| == StepCount && forall i :: 0 <= i < StepCount ==> steps[i].path == StepPaths[i]
    requires k < StepCount
    ensures StepIndex(steps, if withSlash then StepPaths[k] else StepPaths[k][1..]) == Some(k)
  {
    StepIndexOfPath(k, withSlash);
    StepIndexSamePaths(steps, InitialSteps(), if withSlash then StepPaths[k] else StepPaths[k][1..]);
  }

  /** The lookup reads only the paths. */
  lemma StepIndexSamePaths(a: seq<Step>, b: seq<Step>, p: string)
    requires |a| == |b| && forall i :: 0 <= i < |a| ==> a[i].path == b[i].path
    ensures StepIndex(a, p) == StepIndex(b, p)
  {
  }

  /** `getNextStep(completedStep)`: the successor of a known step, pinned at the last one; the first step
      for null, the empty string or an unknown path. */
  function NextStep(completedStep: Option<string>): (r: string)
    ensures r in StepPaths
    ensures completedStep.None? || completedStep == Some("") ==> r == StepPaths[0]
    ensures completedStep.Some? && StepIndex(InitialSteps(), completedStep.value).None? ==> r == StepPaths[0]
  {
    if completedStep.None? || completedStep.value == "" then StepPaths[0]
    else match StepIndex(InitialSteps(), completedStep.value)
      case None => StepPaths[0]
      case Some(k) => if k == StepCount - 1 then InitialSteps()[k].path else InitialSteps()[k + 1].path
  }

  /** The successor rule on every step path: a leading slash is optional and the last step stays put. */
  lemma NextStepOfStep(k: nat, withSlash: bool)
    requires k < StepCount
    ensures NextStep(Some(if withSlash then StepPaths[k] else StepPaths[k][1..]))
         == if k == StepCount - 1 then StepPaths[k] else StepPaths[k + 1]
  {
    StepIndexOfPath(k, withSlash);
    if k < StepCount - 1 {
      assert InitialSteps()[k + 1].path == StepPaths[k + 1];
    } else {
      assert InitialSteps()[k].path == StepPaths[k];
    }
  }

  // ---- completing a prefix ----

  /** The step, completed at `timestamp`. */
  function Complete(s: Step, timestamp: string): Step {
    s.(isCompleted := true, completedAt := Some(timestamp))
  }

  /** The steps after the loop `for (i = 0; i < n; i++) if (!steps[i].isCompleted) { … }`: every step below
      `n` is complete; those that were not get the one shared timestamp; the rest keep everything. */
  function CompletedBelow(steps: seq<Step>, n: nat, timestamp: string): (r: seq<Step>)
    ensures |r| == |steps|
    ensures forall i :: 0 <= i < |r| ==> r[i].path == steps[i].path && r[i].name == steps[i].name
    ensures forall i :: 0 <= i < |r| ==> (r[i].isCompleted <==> i < n || steps[i].isCompleted)
    ensures forall i :: 0 <= i < |r| && (n <= i || steps[i].isCompleted) ==> r[i] == steps[i]
    ensures forall i :: 0 <= i < |r| && i < n && !steps[i].isCompleted ==> r[i].completedAt == Some(timestamp)
  {
    seq(|steps|, i requires 0 <= i < |steps| =>
      if i < n && !steps[i].isCompleted then Complete(steps[i], timestamp) else steps[i])
  }

  /** The two completion loops of the reducer, run on a copy of the step list. */
  method MarkCompleted(steps: seq<Step>, n: nat, timestamp: string) returns (r: seq<Step>)
    requires n <= |steps|
    ensures r == CompletedBelow(steps, n, timestamp)
  {
    r := steps;
    var i := 0;
    while i < n
      invariant 0 <= i <= n
      invariant |r| == |steps|
      invariant forall j :: 0 <= j < |r| ==>
        r[j] == if j < i && !steps[j].isCompleted then Complete(steps[j], timestamp) else steps[j]
    {
      if !r[i].isCompleted {
        r := r[i := Complete(r[i], timestamp)];
      }
      i := i + 1;
    }
  }

  /** Running the cascade again with a later timestamp changes nothing. */
  lemma CompletedBelowIdempotent(steps: seq<Step>, n: nat, t1: string, t2: string)
    ensures CompletedBelow(CompletedBelow(steps, n, t1), n, t2) == CompletedBelow(steps, n, t1)
  {
  }

  // ---- the well-formedness invariant ----

  /** Completion flags form a prefix of the list. */
  predicate CompletionPrefix(steps: seq<Step>) {
    forall i, j :: 0 <= i < j < |steps| && steps[j].isCompleted ==> steps[i].isCompleted
  }

  /** The index of the first incomplete step, or the length when every step is complete. */
  function Frontier(steps: seq<Step>): (m: nat)
    ensures m <= |steps|
    ensures forall i :: 0 <= i < m ==> steps[i].isCompleted
    ensures m < |steps| ==> !steps[m].isCompleted
  {
    if steps == [] || !steps[0].isCompleted then 0 else 1 + Frontier(steps[1..])
  }

  /** What every user's progress looks like: the eight steps in their order, a completion time exactly on
      the completed ones, completion a prefix, and the current step one of the step paths. */
  predicate WellFormed(u: UserStepState) {
    && |u.steps| == StepCount
    && (forall i :: 0 <= i < StepCount ==> u.steps[i].path == StepPaths[i] && u.steps[i].name == StepNames[i])
    && (forall i :: 0 <= i < StepCount ==> (u.steps[i].isCompleted <==> u.steps[i].completedAt.Some?))
    && CompletionPrefix(u.steps)
    && u.currentStep in StepPaths
  }

  predicate ValidState(s: StepState) {
    forall id :: id in s.userStates ==> WellFormed(s.userStates[id])
  }

  /** Under the prefix rule, a step is complete exactly when it lies below the frontier. */
  lemma PrefixFrontier(steps: seq<Step>)
    requires CompletionPrefix(steps)
    ensures forall i :: 0 <= i < |steps| ==> (steps[i].isCompleted <==> i < Frontier(steps))
  {
  }

  lemma CompletedBelowKeepsWellFormed(u: UserStepState, n: nat, timestamp: string)
    requires WellFormed(u) && n <= StepCount
    ensures WellFormed(u.(steps := CompletedBelow(u.steps, n, timestamp)))
  {
  }

  // ---- the reducer ----

  datatype Action =
    | SetCurrentUser(userId: string)
    | CompleteStep(stepPath: string)
    | AutoCompletePreviousSteps(currentPath: string)
    | SetCurrentCompletedStep(completedStep: Option<string>)
    | SetPreSurvey(preSurvey: Survey)
    | SetPostSurvey(postSurvey: Survey)

  /** The user the step actions apply to: `currentUserId` when it is a non-empty id with a state. */
  function ActiveUser(s: StepState): (r: Option<string>)
    ensures r.Some? <==> s.currentUserId.Some? && s.currentUserId.value != "" && s.currentUserId.value in s.userStates
    ensures r.Some? ==> r == s.currentUserId
  {
    if s.currentUserId.Some? && s.currentUserId.value != "" && s.currentUserId.value in s.userStates
    then s.currentUserId else None
  }

  /** `completeStepAndPrevious(userState, stepPath)`. */
  function CompleteStepAndPrevious(u: UserStepState, stepPath: string, now: string): UserStepState {
    match StepIndex(u.steps, stepPath)
    case None => u
    case Some(k) =>
      u.(steps := CompletedBelow(u.steps, k + 1, now),
         currentCompletedStep := Some(stepPath),
         currentStep := NextStep(Some(stepPath)))
  }

  /** The body of `autoCompletePreviousSteps` once the user is known. */
  function CompletePrevious(u: UserStepState, currentPath: string, now: string): UserStepState {
    match StepIndex(u.steps, currentPath)
    case None => u
    case Some(k) => u.(steps := CompletedBelow(u.steps, k, now))
  }

  /** The user state an action other than `setCurrentUser` leaves behind. */
  function ApplyToUser(u: UserStepState, a: Action, now: string): UserStepState
    requires !a.SetCurrentUser?
  {
    match a
    case CompleteStep(p) => CompleteStepAndPrevious(u, p, now)
    case AutoCompletePreviousSteps(p) => CompletePrevious(u, p, now)
    case SetCurrentCompletedStep(c) => u.(currentCompletedStep := c, currentStep := NextStep(c))
    case SetPreSurvey(p) => u.(preSurvey := Some(p))
    case SetPostSurvey(p) => u.(postSurvey := Some(p))
  }

  /** The slice reducer; `now` is the clock reading the two completion actions take. */
  function Reduce(s: StepState, a: Action, now: string): StepState {
    match a
    case SetCurrentUser(id) =>
      StepState(if id in s.userStates then s.userStates else s.userStates[id := InitialUserState()], Some(id))
    case _ =>
      match ActiveUser(s)
      case None => s
      case Some(id) => s.(userStates := s.userStates[id := ApplyToUser(s.userStates[id], a, now)])
  }

  lemma ApplyKeepsWellFormed(u: UserStepState, a: Action, now: string)
    requires WellFormed(u) && !a.SetCurrentUser?
    ensures WellFormed(ApplyToUser(u, a, now))
  {
    match a
    case CompleteStep(p) =>
      if StepIndex(u.steps, p).Some? {
        CompletedBelowKeepsWellFormed(u, StepIndex(u.steps, p).value + 1, now);
      }
    case AutoCompletePreviousSteps(p) =>
      if StepIndex(u.steps, p).Some? {
        CompletedBelowKeepsWellFormed(u, StepIndex(u.steps, p).value, now);
      }
    case _ =>
  }

  /** Every action keeps every user's progress well formed. */
  lemma ReduceKeepsValid(s: StepState, a: Action, now: string)
    requires ValidState(s)
    ensures ValidState(Reduce(s, a, now))
  {
    if !a.SetCurrentUser? && ActiveUser(s).Some? {
      ApplyKeepsWellFormed(s.userStates[ActiveUser(s).value], a, now);
    }
  }

  /** No action clears a completion flag or changes the time a step was completed. */
  predicate Extends(before: seq<Step>, after: seq<Step>) {
    |after| == |before| &&
    forall i :: 0 <= i < |before| && before[i].isCompleted ==> after[i] == before[i]
  }

  lemma ReduceIsMonotone(s: StepState, a: Action, now: string)
    ensures forall id :: id in s.userStates ==>
      id in Reduce(s, a, now).userStates && Extends(s.userStates[id].steps, Reduce(s, a, now).userStates[id].steps)
  {
  }

  /** Users are isolated: `setCurrentUser` never alters an existing user's state, and every other action
      changes at most the active user's entry and nothing else (not the current user id, not the key set). */
  lemma ReduceIsolatesUsers(s: StepState, a: Action, now: string)
    ensures a.SetCurrentUser? ==> forall id :: id in s.userStates ==>
      id in Reduce(s, a, now).userStates && Reduce(s, a, now).userStates[id] == s.userStates[id]
    ensures !a.SetCurrentUser? ==>
      Reduce(s, a, now).currentUserId == s.currentUserId
      && Reduce(s, a, now).userStates.Keys == s.userStates.Keys
      && forall id :: id in s.userStates && Some(id) != ActiveUser(s) ==> Reduce(s, a, now).userStates[id] == s.userStates[id]
  {
  }

  /** `setCurrentUser` makes the id current and creates a fresh state only for a user who has none. */
  lemma SetCurrentUserEffect(s: StepState, id: string, now: string)
    ensures Reduce(s, SetCurrentUser(id), now).currentUserId == Some(id)
    ensures Reduce(s, SetCurrentUser(id), now).userStates[id]
         == if id in s.userStates then s.userStates[id] else InitialUserState()
  {
  }

  /** A `completeStep` with no usable current user, or with a path that is not a step, changes nothing,
      `currentCompletedStep` included. */
  lemma CompleteStepNoOp(s: StepState, p: string, now: string)
    requires ActiveUser(s).None? || StepIndex(s.userStates[ActiveUser(s).value].steps, p).None?
    ensures Reduce(s, CompleteStep(p), now) == s
    ensures Reduce(s, AutoCompletePreviousSteps(p), now) == s
  {
    if ActiveUser(s).Some? {
      var id := ActiveUser(s).value;
      assert s.userStates[id := s.userStates[id]] == s.userStates;
    }
  }

  /** `completeStep(p)` for a step at index k: steps 0..k are complete, the newly completed ones share the
      time `now`, earlier completions keep theirs, later steps are untouched; `currentCompletedStep` is `p`
      exactly as given and `currentStep` is its successor. */
  lemma CompleteStepEffect(s: StepState, p: string, now: string)
    requires ActiveUser(s).Some?
    requires StepIndex(s.userStates[ActiveUser(s).value].steps, p).Some?
    ensures var id := ActiveUser(s).value;
      var before := s.userStates[id];
      var after := Reduce(s, CompleteStep(p), now).userStates[id];
      var k := StepIndex(before.steps, p).value;
      && |after.steps| == |before.steps|
      && (forall i :: 0 <= i <= k ==> after.steps[i].isCompleted)
      && (forall i :: 0 <= i <= k && !before.steps[i].isCompleted ==> after.steps[i].completedAt == Some(now))
      && (forall i :: 0 <= i < |before.steps| && (k < i || before.steps[i].isCompleted) ==> after.steps[i] == before.steps[i])
      && after.currentCompletedStep == Some(p)
      && after.currentStep == NextStep(Some(p))
      && after.preSurvey == before.preSurvey && after.postSurvey == before.postSurvey
  {
  }

  /** `autoCompletePreviousSteps(p)` completes only the steps strictly before p's index: step p itself,
      `currentCompletedStep` and `currentStep` stay as they were. */
  lemma AutoCompleteEffect(s: StepState, p: string, now: string)
    requires ActiveUser(s).Some?
    requires StepIndex(s.userStates[ActiveUser(s).value].steps, p).Some?
    ensures var id := ActiveUser(s).value;
      var before := s.userStates[id];
      var after := Reduce(s, AutoCompletePreviousSteps(p), now).userStates[id];
      var k := StepIndex(before.steps, p).value;
      && |after.steps| == |before.steps|
      && (forall i :: 0 <= i < k ==> after.steps[i].isCompleted)
      && (forall i :: 0 <= i < k && !before.steps[i].isCompleted ==> after.steps[i].completedAt == Some(now))
      && (forall i :: k <= i < |before.steps| ==> after.steps[i] == before.steps[i])
      && after == before.(steps := after.steps)
  {
  }

  /** `setCurrentCompletedStep`, `setPreSurvey` and `setPostSurvey` touch only their own fields. */
  lemma SettersTouchOnlyTheirFields(s: StepState, c: Option<string>, survey: Survey, now: string)
    requires ActiveUser(s).Some?
    ensures var id := ActiveUser(s).value;
      var u := s.userStates[id];
      && Reduce(s, SetCurrentCompletedStep(c), now).userStates[id] == u.(currentCompletedStep := c, currentStep := NextStep(c))
      && Reduce(s, SetPreSurvey(survey), now).userStates[id] == u.(preSurvey := Some(survey))
      && Reduce(s, SetPostSurvey(survey), now).userStates[id] == u.(postSurvey := Some(survey))
  {
  }

  // ---- selectors ----

  /** `selectCurrentUserState`. */
  function SelectCurrentUserState(s: StepState): (r: Option<UserStepState>)
    ensures r.Some? <==> ActiveUser(s).Some?
    ensures r.Some? ==> r.value == s.userStates[ActiveUser(s).value]
  {
    match ActiveUser(s)
    case None => None
    case Some(id) => Some(s.userStates[id])
  }

  function SelectAllSteps(u: Option<UserStepState>): seq<Step> {
    if u.Some? then u.value.steps else []
  }

  function SelectCurrentStep(u: Option<UserStepState>): Option<string> {
    if u.Some? then Some(u.value.currentStep) else None
  }

  /** `steps.filter(step => step.isCompleted)`. */
  function CompletedOf(steps: seq<Step>): (r: seq<Step>)
    ensures |r| <= |steps|
  {
    if steps == [] then []
    else (if steps[0].isCompleted then [steps[0]] else []) + CompletedOf(steps[1..])
  }

  /** The filter keeps exactly the completed steps. */
  lemma {:induction false} CompletedOfFilters(steps: seq<Step>)
    ensures forall s :: s in CompletedOf(steps) <==> s in steps && s.isCompleted
  {
    if steps != [] {
      CompletedOfFilters(steps[1..]);
      assert steps == [steps[0]] + steps[1..];
    }
  }

  function SelectCompletedSteps(u: Option<UserStepState>): seq<Step> {
    if u.Some? then CompletedOf(u.value.steps) else []
  }

  function PathsOf(steps: seq<Step>): (r: seq<string>)
    ensures |r| == |steps| && forall i :: 0 <= i < |steps| ==> r[i] == steps[i].path
  {
    seq(|steps|, i requires 0 <= i < |steps| => steps[i].path)
  }

  function SelectCompletedStepPaths(u: Option<UserStepState>): seq<string> {
    PathsOf(SelectCompletedSteps(u))
  }

  /** `steps.find(step => step.path === path)`: exact equality, no slash handling. */
  function FindByPath(steps: seq<Step>, path: string): (r: Option<Step>)
    ensures r.Some? <==> exists i :: 0 <= i < |steps| && steps[i].path == path
    ensures r.Some? ==> r.value.path == path && r.value in steps
  {
    if steps == [] then None
    else if steps[0].path == path then Some(steps[0])
    else
      var r := FindByPath(steps[1..], path);
      assert forall i :: 1 <= i < |steps| ==> steps[i] == steps[1..][i - 1];
      r
  }

  function SelectStepByPath(u: Option<UserStepState>, path: string): (r: Option<Step>)
    ensures u.None? ==> r.None?
  {
    if u.Some? then FindByPath(u.value.steps, path) else None
  }

  function SelectIsStepCompleted(u: Option<UserStepState>, path: string): (r: bool)
    ensures u.None? ==> !r
  {
    match SelectStepByPath(u, path)
    case Some(step) => step.isCompleted
    case None => false
  }

  /** `Math.round(100 * completed / (total - 1))` in exact arithmetic, halves rounding up; None stands for
      the NaN or Infinity of a one-step list. */
  function Percentage(completed: nat, total: nat): (r: Option<int>)
    requires completed <= total
    ensures r.None? <==> total == 1
    ensures total > 1 ==>
      && r.Some?
      && 2 * (total - 1) * r.value - (total - 1) <= 200 * completed < 2 * (total - 1) * r.value + (total - 1)
  {
    if total == 1 then None
    else if total == 0 then Some(0)
    else Some((200 * completed + (total - 1)) / (2 * (total - 1)))
  }

  /** `selectProgressPercentage`: 0 without a user. */
  function SelectProgressPercentage(u: Option<UserStepState>): (r: Option<int>)
    ensures u.None? ==> r == Some(0)
  {
    if u.None? then Some(0) else Percentage(|CompletedOf(u.value.steps)|, |u.value.steps|)
  }

  function SelectPreSurvey(u: Option<UserStepState>): Option<Survey> {
    if u.Some? then u.value.preSurvey else None
  }

  function SelectHasPreSurvey(u: Option<UserStepState>): (r: bool)
    ensures r <==> u.Some? && u.value.preSurvey.Some?
  {
    SelectPreSurvey(u).Some?
  }

  function SelectPostSurvey(u: Option<UserStepState>): Option<Survey> {
    if u.Some? then u.value.postSurvey else None
  }

  function SelectHasPostSurvey(u: Option<UserStepState>): (r: bool)
    ensures r <==> u.Some? && u.value.postSurvey.Some?
  {
    SelectPostSurvey(u).Some?
  }

  /** Under the prefix rule, the completed steps are exactly the first `Frontier` steps. */
  lemma {:induction false} CompletedOfPrefix(steps: seq<Step>)
    requires CompletionPrefix(steps)
    ensures CompletedOf(steps) == steps[..Frontier(steps)]
  {
    if steps == [] {
    } else if !steps[0].isCompleted {
      NothingCompletedAfterIncomplete(steps);
    } else {
      TailCompletionPrefix(steps);
      CompletedOfPrefix(steps[1..]);
      CompletedPrefixStep(steps);
    }
  }

  /** A completed first step extends the completed prefix of the rest by one. */
  lemma CompletedPrefixStep(steps: seq<Step>)
    requires steps != [] && steps[0].isCompleted
    requires CompletedOf(steps[1..]) == steps[1..][..Frontier(steps[1..])]
    ensures CompletedOf(steps) == steps[..Frontier(steps)]
  {
    var tail, m := steps[1..], Frontier(steps[1..]);
    var r := CompletedOf(steps);
    assert r == [steps[0]] + tail[..m];
    forall i | 0 <= i <= m ensures r[i] == steps[i] {
      if i > 0 {
        assert r[i] == tail[i - 1];
      }
    }
    assert r == steps[..m + 1];
  }

  /** Under the prefix rule, an incomplete first step leaves nothing completed. */
  lemma NothingCompletedAfterIncomplete(steps: seq<Step>)
    requires CompletionPrefix(steps) && steps != [] && !steps[0].isCompleted
    ensures CompletedOf(steps) == []
  {
    CompletedOfFilters(steps);
  }

  /** The prefix rule holds for the steps after the first. */
  lemma TailCompletionPrefix(steps: seq<Step>)
    requires steps != [] && CompletionPrefix(steps)
    ensures CompletionPrefix(steps[1..])
  {
    var tail := steps[1..];
    forall i, j | 0 <= i < j < |tail| && tail[j].isCompleted ensures tail[i].isCompleted {
      assert steps[i + 1] == tail[i] && steps[j + 1] == tail[j];
    }
  }

  lemma StepPathsDistinct()
    ensures forall i, j :: 0 <= i < j < StepCount ==> StepPaths[i] != StepPaths[j]
  {
    StepTailsDistinct();
  }

  /** For well-formed progress the completed paths are the first m step paths, m being the frontier. */
  lemma CompletedPathsArePrefix(u: UserStepState)
    requires WellFormed(u)
    ensures SelectCompletedStepPaths(Some(u)) == StepPaths[..Frontier(u.steps)]
  {
    CompletedOfPrefix(u.steps);
  }

  /** For well-formed progress the percentage is `Math.round(100 * m / 7)`. */
  lemma ProgressOfFrontier(u: UserStepState)
    requires WellFormed(u)
    ensures SelectProgressPercentage(Some(u)) == Percentage(Frontier(u.steps), StepCount)
  {
    CompletedOfPrefix(u.steps);
  }

  predicate DistinctPaths(steps: seq<Step>) {
    forall i, j :: 0 <= i < j < |steps| ==> steps[i].path != steps[j].path
  }

  lemma {:induction false} FindCompletedIffListed(steps: seq<Step>, path: string)
    requires CompletionPrefix(steps) && DistinctPaths(steps)
    ensures (FindByPath(steps, path).Some? && FindByPath(steps, path).value.isCompleted)
        <==> path in PathsOf(CompletedOf(steps))
  {
    CompletedOfPrefix(steps);
    PrefixFrontier(steps);
    var m := Frontier(steps);
    var listed := PathsOf(CompletedOf(steps));
    assert |listed| == m && forall j :: 0 <= j < m ==> listed[j] == steps[j].path;
    if FindByPath(steps, path).Some? {
      var step := FindByPath(steps, path).value;
      var i :| 0 <= i < |steps| && steps[i] == step;
      if step.isCompleted {
        assert listed[i] == path;
      }
      if path in listed {
        var j :| 0 <= j < m && listed[j] == path;
        assert steps[j].path == steps[i].path;
      }
    }
  }

  /** For well-formed progress a path is reported complete exactly when it is among the completed paths,
      the fact the sidebar relies on. */
  lemma IsStepCompletedIffListed(u: UserStepState, path: string)
    requires WellFormed(u)
    ensures SelectIsStepCompleted(Some(u), path) <==> path in SelectCompletedStepPaths(Some(u))
  {
    StepPathsDistinct();
    FindCompletedIffListed(u.steps, path);
  }

  /** The percentage is not clamped: with every step complete it reads 114. */
  lemma AllCompleteReads114(u: UserStepState)
    requires WellFormed(u) && forall i :: 0 <= i < StepCount ==> u.steps[i].isCompleted
    ensures SelectProgressPercentage(Some(u)) == Some(114)
  {
    ProgressOfFrontier(u);
    assert Frontier(u.steps) == StepCount;
  }

  // ---- the store ----

  /** The slice state, updated in place by its actions. */
  class StepStore {
    var userStates: map<string, UserStepState>
    var currentUserId: Option<string>

    function State(): StepState
      reads this
    {
      StepState(userStates, currentUserId)
    }

    /** `initialState`: no users, no current user. */
    constructor()
      ensures State() == StepState(map[], None) && ValidState(State())
    {
      userStates := map[];
      currentUserId := None;
    }

    method SetCurrentUser(userId: string)
      modifies this
      ensures State() == Reduce(old(State()), Action.SetCurrentUser(userId), "")
      ensures old(ValidState(State())) ==> ValidState(State())
    {
      currentUserId := Some(userId);
      if userId !in userStates {
        userStates := userStates[userId := InitialUserState()];
      }
      if old(ValidState(State())) {
        ReduceKeepsValid(old(State()), Action.SetCurrentUser(userId), "");
      }
    }

    method CompleteStep(stepPath: string, now: string)
      modifies this
      ensures State() == Reduce(old(State()), Action.CompleteStep(stepPath), now)
      ensures old(ValidState(State())) ==> ValidState(State())
    {
      if ValidState(State()) {
        ReduceKeepsValid(State(), Action.CompleteStep(stepPath), now);
      }
      var id := ActiveUser(State());
      if id.None? {
        return;
      }
      var u := userStates[id.value];
      var k := StepIndex(u.steps, stepPath);
      if k.None? {
        assert userStates[id.value := u] == userStates;
        return;
      }
      var steps := MarkCompleted(u.steps, k.value + 1, now);
      userStates := userStates[id.value := u.(steps := steps, currentCompletedStep := Some(stepPath), currentStep := NextStep(Some(stepPath)))];
    }

    method AutoCompletePreviousSteps(currentPath: string, now: string)
      modifies this
      ensures State() == Reduce(old(State()), Action.AutoCompletePreviousSteps(currentPath), now)
      ensures old(ValidState(State())) ==> ValidState(State())
    {
      if ValidState(State()) {
        ReduceKeepsValid(State(), Action.AutoCompletePreviousSteps(currentPath), now);
      }
      var id := ActiveUser(State());
      if id.None? {
        return;
      }
      var u := userStates[id.value];
      var k := StepIndex(u.steps, currentPath);
      if k.None? {
        assert userStates[id.value := u] == userStates;
        return;
      }
      var steps := MarkCompleted(u.steps, k.value, now);
      userStates := userStates[id.value := u.(steps := steps)];
    }

    method SetCurrentCompletedStep(completedStep: Option<string>)
      modifies this
      ensures State() == Reduce(old(State()), Action.SetCurrentCompletedStep(completedStep), "")
      ensures old(ValidState(State())) ==> ValidState(State())
    {
      if ValidState(State()) {
        ReduceKeepsValid(State(), Action.SetCurrentCompletedStep(completedStep), "");
      }
      var id := ActiveUser(State());
      if id.None? {
        return;
      }
      var u := userStates[id.value];
      userStates := userStates[id.value := u.(currentCompletedStep := completedStep, currentStep := NextStep(completedStep))];
    }

    method SetPreSurvey(preSurvey: Survey)
      modifies this
      ensures State() == Reduce(old(State()), Action.SetPreSurvey(preSurvey), "")
      ensures old(ValidState(State())) ==> ValidState(State())
    {
      if ValidState(State()) {
        ReduceKeepsValid(State(), Action.SetPreSurvey(preSurvey), "");
      }
      var id := ActiveUser(State());
      if id.None? {
        return;
      }
      userStates := userStates[id.value := userStates[id.value].(preSurvey := Some(preSurvey))];
    }

    method SetPostSurvey(postSurvey: Survey)
      modifies this
      ensures State() == Reduce(old(State()), Action.SetPostSurvey(postSurvey), "")
      ensures old(ValidState(State())) ==> ValidState(State())
    {
      if ValidState(State()) {
        ReduceKeepsValid(State(), Action.SetPostSurvey(postSurvey), "");
      }
      var id := ActiveUser(State());
      if id.None? {
        return;
      }
      userStates := userStates[id.value := userStates[id.value].(postSurvey := Some(postSurvey))];
    }
  }
}
