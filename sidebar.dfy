/** The per-step flags the sidebar derives from the step list and the completed paths it is given. */
module SideBar {
  import opened Wrappers
  import Reducer

  datatype SidebarStep = SidebarStep(name: string, path: string)

  /** The flags one step item is drawn with. */
  datatype StepFlags = StepFlags(isCompleted: bool, isClickable: bool, isActive: bool, isSelected: bool)

  predicate DistinctPaths(steps: seq<SidebarStep>) {
    forall i, j :: 0 <= i < j < |steps| ==> steps[i].path != steps[j].path
  }

  /** `completedSteps.includes(step.path)`. */
  predicate IsCompleted(steps: seq<SidebarStep>, completedSteps: seq<string>, index: nat)
    requires index < |steps|
  {
    steps[index].path in completedSteps
  }

  /** The first step, a step whose predecessor is completed, or a completed step. */
  predicate IsClickable(steps: seq<SidebarStep>, completedSteps: seq<string>, index: nat)
    requires index < |steps|
  {
    index == 0 || steps[index - 1].path in completedSteps || IsCompleted(steps, completedSteps, index)
  }

  /** `steps.find(s => !completedSteps.includes(s.path))`, as an index. */
  function NextStepToComplete(steps: seq<SidebarStep>, completedSteps: seq<string>): (r: Option<nat>)
    ensures r.Some? ==> r.value < |steps| && steps[r.value].path !in completedSteps
    ensures forall j :: 0 <= j < |steps| && (r.None? || j < r.value) ==> steps[j].path in completedSteps
  {
    FirstIncompleteFrom(steps, completedSteps, 0)
  }

  function FirstIncompleteFrom(steps: seq<SidebarStep>, completedSteps: seq<string>, i: nat): (r: Option<nat>)
    requires i <= |steps|
    requires forall j :: 0 <= j < i ==> steps[j].path in completedSteps
    ensures r.Some? ==> i <= r.value < |steps| && steps[r.value].path !in completedSteps
    ensures forall j :: 0 <= j < |steps| && (r.None? || j < r.value) ==> steps[j].path in completedSteps
    decreases |steps| - i
  {
    if i == |steps| then None
    else if steps[i].path !in completedSteps then Some(i)
    else FirstIncompleteFrom(steps, completedSteps, i + 1)
  }

  /** The step whose path is that of the next step to complete. */
  predicate IsActive(steps: seq<SidebarStep>, completedSteps: seq<string>, index: nat)
    requires index < |steps|
  {
    match NextStepToComplete(steps, completedSteps)
    case Some(j) => steps[j].path == steps[index].path
    case None => false
  }

  /** `location.pathname === step.path`. */
  predicate IsSelected(steps: seq<SidebarStep>, pathname: string, index: nat)
    requires index < |steps|
  {
    pathname == steps[index].path
  }

  function Flags(steps: seq<SidebarStep>, completedSteps: seq<string>, pathname: string, index: nat): StepFlags
    requires index < |steps|
  {
    StepFlags(IsCompleted(steps, completedSteps, index), IsClickable(steps, completedSteps, index),
              IsActive(steps, completedSteps, index), IsSelected(steps, pathname, index))
  }

  /** The click handler: the route navigated to, if any. */
  function OnClick(steps: seq<SidebarStep>, completedSteps: seq<string>, index: nat): (target: Option<string>)
    requires index < |steps|
    ensures target.Some? <==> IsClickable(steps, completedSteps, index)
    ensures target.Some? ==> target.value == steps[index].path
  {
    if IsClickable(steps, completedSteps, index) then Some(steps[index].path) else None
  }

  /** With distinct paths, a step is active exactly when it is the first one whose path is not completed;
      so at most one step is active, and none once every step is completed. */
  lemma ActiveIsFirstIncomplete(steps: seq<SidebarStep>, completedSteps: seq<string>, index: nat)
    requires DistinctPaths(steps) && index < |steps|
    ensures IsActive(steps, completedSteps, index) <==>
      steps[index].path !in completedSteps && forall j :: 0 <= j < index ==> steps[j].path in completedSteps
  {
    var r := NextStepToComplete(steps, completedSteps);
    if steps[index].path !in completedSteps && forall j :: 0 <= j < index ==> steps[j].path in completedSteps {
      assert r.Some? && r.value == index;
    }
  }

  lemma AtMostOneActive(steps: seq<SidebarStep>, completedSteps: seq<string>, i: nat, j: nat)
    requires DistinctPaths(steps) && i < |steps| && j < |steps|
    requires IsActive(steps, completedSteps, i) && IsActive(steps, completedSteps, j)
    ensures i == j
  {
    ActiveIsFirstIncomplete(steps, completedSteps, i);
    ActiveIsFirstIncomplete(steps, completedSteps, j);
  }

  lemma NoneActiveWhenAllCompleted(steps: seq<SidebarStep>, completedSteps: seq<string>, index: nat)
    requires index < |steps|
    requires forall i :: 0 <= i < |steps| ==> steps[i].path in completedSteps
    ensures !IsActive(steps, completedSteps, index)
  {
  }

  function Paths(steps: seq<SidebarStep>): (ps: seq<string>)
    ensures |ps| == |steps| && forall i :: 0 <= i < |steps| ==> ps[i] == steps[i].path
  {
    seq(|steps|, i requires 0 <= i < |steps| => steps[i].path)
  }

  /** When the completed paths are the first k step paths, the clickable steps are that prefix plus the
      first incomplete step, and the active step is step k. */
  lemma ClickableIsPrefixPlusOne(steps: seq<SidebarStep>, k: nat, index: nat)
    requires DistinctPaths(steps) && k <= |steps| && index < |steps|
    ensures IsClickable(steps, Paths(steps)[..k], index) <==> index <= k
    ensures IsActive(steps, Paths(steps)[..k], index) <==> index == k
  {
    var completed := Paths(steps)[..k];
    assert forall i :: 0 <= i < |steps| ==> (steps[i].path in completed <==> i < k) by {
      forall i | 0 <= i < |steps| ensures steps[i].path in completed <==> i < k {
        if steps[i].path in completed {
          var j :| 0 <= j < k && completed[j] == steps[i].path;
          assert steps[j].path == steps[i].path;
        }
      }
    }
    ActiveIsFirstIncomplete(steps, completed, index);
  }

  /** The steps as the app hands them over: `{name, path}` of each store step. */
  function FromStore(steps: seq<Reducer.Step>): (r: seq<SidebarStep>)
    ensures |r| == |steps| && forall i :: 0 <= i < |steps| ==> r[i].path == steps[i].path
  {
    seq(|steps|, i requires 0 <= i < |steps| => SidebarStep(steps[i].name, steps[i].path))
  }

  /** Fed from a user's well-formed store state, the sidebar lets the user open exactly the completed
      steps and the next one, and marks that next one active. */
  lemma SidebarOverStore(u: Reducer.UserStepState, index: nat)
    requires Reducer.WellFormed(u) && index < Reducer.StepCount
    ensures var steps := FromStore(Reducer.SelectAllSteps(Some(u)));
      var completed := Reducer.SelectCompletedStepPaths(Some(u));
      var m := Reducer.Frontier(u.steps);
      && (IsCompleted(steps, completed, index) <==> index < m)
      && (IsClickable(steps, completed, index) <==> index <= m)
      && (IsActive(steps, completed, index) <==> index == m)
  {
    var steps := FromStore(u.steps);
    Reducer.CompletedPathsArePrefix(u);
    Reducer.StepPathsDistinct();
    assert Paths(steps) == Reducer.StepPaths;
    ClickableIsPrefixPlusOne(steps, Reducer.Frontier(u.steps), index);
    var completed := Paths(steps)[..Reducer.Frontier(u.steps)];
    if steps[index].path in completed {
      var j :| 0 <= j < |completed| && completed[j] == steps[index].path;
      assert steps[j].path == steps[index].path;
    }
  }
}
