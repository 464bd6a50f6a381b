/**
 * The observed-behaviour checklist shared by the self-reflection and simulation-checklist components:
 * items are plain objects, saved items are merged over the defaults index by index, the handlers
 * rewrite one field of one item, and the submit payload keeps three fields per item.
 */
module Checklist {
  import opened Wrappers
  import opened Assoc
  import opened Json

  type Item = Dict<Value>

  /** A default item `{observedBehavior, description, completed: false, notes: ""}`. */
  function DefaultItem(observedBehavior: string, description: string): (item: Item)
    ensures DistinctKeys(item) && Complete(item)
  {
    var item := [("observedBehavior", JStr(observedBehavior)), ("description", JStr(description)),
                 ("completed", JBool(false)), ("notes", JStr(""))];
    assert item[0].0 == ProjectedKeys[0] && item[2].0 == ProjectedKeys[1] && item[3].0 == ProjectedKeys[2];
    item
  }

  /** The default list built from the behaviours and their descriptions, index by index. */
  function Defaults(behaviors: seq<string>, descriptions: seq<string>): (items: seq<Item>)
    requires |behaviors| == |descriptions|
    ensures |items| == |behaviors|
    ensures forall i :: 0 <= i < |items| ==> items[i] == DefaultItem(behaviors[i], descriptions[i])
  {
    seq(|behaviors|, i requires 0 <= i < |behaviors| => DefaultItem(behaviors[i], descriptions[i]))
  }

  /** Descriptions are not submitted: two default lists with the same behaviours submit alike. */
  lemma DescriptionsNotSubmitted(behaviors: seq<string>, descriptions1: seq<string>, descriptions2: seq<string>)
    requires |behaviors| == |descriptions1| == |descriptions2|
    ensures Project(Defaults(behaviors, descriptions1)) == Project(Defaults(behaviors, descriptions2))
  {
    var p1, p2 := Project(Defaults(behaviors, descriptions1)), Project(Defaults(behaviors, descriptions2));
    forall i | 0 <= i < |behaviors| ensures p1[i] == p2[i] {
      var a, b := DefaultItem(behaviors[i], descriptions1[i]), DefaultItem(behaviors[i], descriptions2[i]);
      GetAt(a, 2); GetAt(b, 2); GetAt(a, 3); GetAt(b, 3);
      assert Pick(a, "observedBehavior") == Pick(b, "observedBehavior");
    }
  }

  predicate AllDistinct(items: seq<Item>) {
    forall i :: 0 <= i < |items| ==> DistinctKeys(items[i])
  }

  /** `defaults[index]`, which is undefined (spreads as nothing) past the end. */
  function DefaultAt(defaults: seq<Item>, index: nat): Item {
    if index < |defaults| then defaults[index] else []
  }

  /** `saved.map((item, index) => ({...defaults[index], ...item}))`. */
  function MergeOverDefaults(defaults: seq<Item>, saved: seq<Item>): (merged: seq<Item>)
    requires AllDistinct(saved)
    ensures |merged| == |saved|
    ensures forall i, k :: 0 <= i < |saved| ==>
      Get(merged[i], k) == if HasKey(saved[i], k) then Get(saved[i], k) else Get(DefaultAt(defaults, i), k)
  {
    seq(|saved|, i requires 0 <= i < |saved| => Spread(DefaultAt(defaults, i), saved[i]))
  }

  /** `prev.map((item, i) => i === index ? {...item, [key]: value} : item)`: an index outside the list
      changes nothing. */
  function SetAt(items: seq<Item>, index: int, key: string, value: Value): (r: seq<Item>)
    ensures |r| == |items|
    ensures forall i :: 0 <= i < |items| && i != index ==> r[i] == items[i]
    ensures 0 <= index < |items| ==> Get(r[index], key) == Some(value)
    ensures 0 <= index < |items| ==> forall k :: k != key ==> Get(r[index], k) == Get(items[index], k)
  {
    seq(|items|, i requires 0 <= i < |items| => if i == index then Set(items[i], key, value) else items[i])
  }

  /** `handleCheckboxChange(index, checked)`. */
  function CheckboxChange(items: seq<Item>, index: int, checked: bool): seq<Item> {
    SetAt(items, index, "completed", JBool(checked))
  }

  /** `handleNotesChange(index, notes)`. */
  function NotesChange(items: seq<Item>, index: int, notes: string): seq<Item> {
    SetAt(items, index, "notes", JStr(notes))
  }

  const ProjectedKeys: seq<string> := ["observedBehavior", "completed", "notes"]

  /** One field of the destructured item, or nothing when it is undefined. */
  function Pick(item: Item, key: string): Item {
    match Get(item, key)
    case Some(v) => [(key, v)]
    case None => []
  }

  /** `({observedBehavior, completed, notes}) => ({observedBehavior, completed, notes})`. */
  function ProjectItem(item: Item): (r: Item)
    ensures DistinctKeys(r)
    ensures forall k :: Get(r, k) == if k in ProjectedKeys then Get(item, k) else None
  {
    var r := Pick(item, "observedBehavior") + Pick(item, "completed") + Pick(item, "notes");
    GetAppendPick(Pick(item, "observedBehavior") + Pick(item, "completed"), item, "notes");
    GetAppendPick(Pick(item, "observedBehavior"), item, "completed");
    GetAppendPick([], item, "observedBehavior");
    r
  }

  lemma GetAppendPick(d: Item, item: Item, key: string)
    ensures forall k :: Get(d + Pick(item, key), k) == if HasKey(d, k) then Get(d, k) else if k == key then Get(item, key) else None
  {
    forall k ensures Get(d + Pick(item, key), k) == if HasKey(d, k) then Get(d, k) else if k == key then Get(item, key) else None {
      match Get(item, key)
      case Some(v) => GetAppend(d, (key, v), k);
      case None => assert d + Pick(item, key) == d;
    }
  }

  /** The submit payload: same length and order, three fields per item. */
  function Project(items: seq<Item>): (r: seq<Item>)
    ensures |r| == |items| && forall i :: 0 <= i < |items| ==> r[i] == ProjectItem(items[i])
  {
    seq(|items|, i requires 0 <= i < |items| => ProjectItem(items[i]))
  }

  /** An item that carries all three submitted fields. */
  predicate Complete(item: Item) {
    forall k :: k in ProjectedKeys ==> HasKey(item, k)
  }

  /** Submitting, reloading the payload over the defaults, and submitting again gives the same payload:
      the merge never overrides a submitted field. */
  lemma {:induction false} ReloadKeepsPayload(defaults: seq<Item>, items: seq<Item>)
    requires forall i :: 0 <= i < |items| ==> Complete(items[i])
    ensures Project(MergeOverDefaults(defaults, Project(items))) == Project(items)
  {
    var saved := Project(items);
    var merged := MergeOverDefaults(defaults, saved);
    forall i | 0 <= i < |items| ensures ProjectItem(merged[i]) == saved[i] {
      forall k ensures Get(ProjectItem(merged[i]), k) == Get(saved[i], k) {
        if k in ProjectedKeys {
          assert HasKey(saved[i], k);
        }
      }
      SameEntriesSameProjection(merged[i], saved[i]);
    }
  }

  /** Two items whose projections read alike project to the same object, in key order. */
  lemma SameEntriesSameProjection(a: Item, b: Item)
    requires forall k :: Get(ProjectItem(a), k) == Get(b, k)
    requires b == ProjectItem(b)
    ensures ProjectItem(a) == b
  {
    assert Pick(a, "observedBehavior") == Pick(b, "observedBehavior");
    assert Pick(a, "completed") == Pick(b, "completed");
    assert Pick(a, "notes") == Pick(b, "notes");
  }

  /** The handlers keep every item complete, and merging complete defaults keeps every index that has a
      default complete. */
  lemma HandlersKeepComplete(items: seq<Item>, index: int, checked: bool, notes: string)
    requires forall i :: 0 <= i < |items| ==> Complete(items[i])
    ensures forall i :: 0 <= i < |items| ==> Complete(CheckboxChange(items, index, checked)[i])
    ensures forall i :: 0 <= i < |items| ==> Complete(NotesChange(items, index, notes)[i])
  {
  }
}
