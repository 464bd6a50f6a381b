/**
 * The checklist shown during a simulation level: its own copy of the eight default items, the state it
 * starts from, the effect that reloads saved items, and the submit payload.
 */
module SimulationChecklist {
  import opened Wrappers
  import opened Assoc
  import Checklist
  import SelfReflection

  const Behaviors: seq<string> := [
    "Limited Verbal Output",
    "Telegraphic Speech",
    "Word-Finding Blocks (Anomia)",
    "Perseveration",
    "Communication-Related Frustration",
    "Reliance on Gestures",
    "Reduced Initiation",
    "Inconsistent Yes/No Responses"
  ]

  const Descriptions: seq<string> := [
    "Student should recognize reduced speech output and document frequency of verbal responses",
    "Student should identify short, incomplete sentences and note communication patterns",
    "Student should observe difficulty finding words and document specific examples",
    "Student should recognize repetitive responses and note when they occur",
    "Student should identify signs of frustration and document patient reactions",
    "Student should observe non-verbal communication and note gesture types used",
    "Student should recognize lack of spontaneous communication and document interaction patterns",
    "Student should identify unreliable responses and note specific questions asked"
  ]

  const DefaultItems: seq<Checklist.Item> := Checklist.Defaults(Behaviors, Descriptions)

  /** The state on mount: `initialData || defaults`, so an empty array is kept until the effect runs. */
  function InitialItems(initialData: Option<seq<Checklist.Item>>): (items: seq<Checklist.Item>)
    ensures initialData.Some? ==> items == initialData.value
    ensures initialData.None? ==> items == DefaultItems
  {
    initialData.GetOr(DefaultItems)
  }

  /** The effect run when `initialData` changes: a non-empty array merged over the defaults, else the
      defaults. Whatever was saved, each of the first eight items carries the three submitted fields. */
  function LoadItems(initialData: Option<seq<Checklist.Item>>): (items: seq<Checklist.Item>)
    requires initialData.Some? ==> Checklist.AllDistinct(initialData.value)
    ensures initialData.None? || initialData.value == [] ==> items == DefaultItems
    ensures initialData.Some? && initialData.value != [] ==>
      |items| == |initialData.value| &&
      forall i, k :: 0 <= i < |items| ==>
        Get(items[i], k) == if HasKey(initialData.value[i], k) then Get(initialData.value[i], k)
                            else Get(Checklist.DefaultAt(DefaultItems, i), k)
    ensures forall i :: 0 <= i < |items| && i < |DefaultItems| ==> Checklist.Complete(items[i])
  {
    if initialData.Some? && |initialData.value| > 0 then
      Checklist.MergeOverDefaults(DefaultItems, initialData.value)
    else DefaultItems
  }

  /** `handleSubmit`: the three submitted fields of every item. */
  function Submit(items: seq<Checklist.Item>): seq<Checklist.Item> {
    Checklist.Project(items)
  }

  /** A submitted list, reloaded, submits the same payload again: the round trip the page relies on when
      a level is revisited. An empty list is the exception, since it reloads as the defaults. */
  lemma ReloadRoundTrip(items: seq<Checklist.Item>)
    requires |items| > 0
    requires forall i :: 0 <= i < |items| ==> Checklist.Complete(items[i])
    ensures Submit(LoadItems(Some(Submit(items)))) == Submit(items)
  {
    Checklist.ReloadKeepsPayload(DefaultItems, items);
  }

  /** An empty submitted list comes back as the eight defaults. */
  lemma EmptyReloadsDefaults()
    ensures Submit(LoadItems(Some(Submit([])))) == Submit(DefaultItems)
    ensures |Submit(DefaultItems)| == 8
  {
  }

  /** The two components' defaults differ only in the third item's description, which is not submitted:
      untouched checklists submit the same payload from either component. */
  lemma DefaultsSubmitAlike()
    ensures Descriptions != SelfReflection.Descriptions
    ensures Submit(DefaultItems) == Checklist.Project(SelfReflection.DefaultItems)
  {
    assert |Descriptions[2]| != |SelfReflection.Descriptions[2]|;
    Checklist.DescriptionsNotSubmitted(Behaviors, Descriptions, SelfReflection.Descriptions);
  }
}
