/**
  The outfit gallery and composer (components/Outfits.tsx): grouping by scenario, the
  scenario list, one-item-per-category selection, the evaluate/save guards and defaults,
  the preview progress stages, and the generating -> done/failed transition.
*/
module Outfits {
  import opened Wrappers
  import opened Types
  import Ids
  import Seqs

  const DefaultScenarios: seq<string> := ["Casual", "Work", "Party", "Sport", "Vacation"]

  predicate Distinct<T(==)>(s: seq<T>) {
    forall i, j :: 0 <= i < j < |s| ==> s[i] != s[j]
  }

  // ---------------------------------------------------------------------------
  // Grouping by scenario

  /** The outfits of one scenario, in gallery order. */
  function InScenario(outfits: seq<Outfit>, s: string): (r: seq<Outfit>)
    ensures |r| <= |outfits|
    ensures forall i :: 0 <= i < |r| ==> r[i] in outfits && r[i].scenario == s
    ensures forall i :: 0 <= i < |outfits| && outfits[i].scenario == s ==> outfits[i] in r
  {
    if outfits == [] then []
    else
      var init := outfits[..|outfits| - 1];
      var last := outfits[|outfits| - 1];
      assert forall i :: 0 <= i < |init| ==> init[i] == outfits[i];
      InScenario(init, s) + (if last.scenario == s then [last] else [])
  }

  /** A group keeps the gallery's relative order: grouping distributes over concatenation. */
  lemma {:induction false} InScenarioConcat(a: seq<Outfit>, b: seq<Outfit>, s: string)
    ensures InScenario(a + b, s) == InScenario(a, s) + InScenario(b, s)
  {
    if b == [] {
      assert a + b == a;
    } else {
      var b' := b[..|b| - 1];
      assert (a + b)[..|a + b| - 1] == a + b';
      InScenarioConcat(a, b', s);
    }
  }

  /** The non-empty scenarios in order of first appearance (`Object.keys(groups)`). */
  function ScenarioKeys(outfits: seq<Outfit>): (k: seq<string>)
    ensures Distinct(k)
    ensures forall x :: x in k <==> x != "" && exists i :: 0 <= i < |outfits| && outfits[i].scenario == x
  {
    if outfits == [] then []
    else
      var init := outfits[..|outfits| - 1];
      var sc := outfits[|outfits| - 1].scenario;
      var k := ScenarioKeys(init);
      assert forall i :: 0 <= i < |init| ==> init[i] == outfits[i];
      if sc == "" || sc in k then k else k + [sc]
  }

  /** Appending one outfit to the gallery extends its scenario's group by it and no other. */
  lemma StepGroup(pre: seq<Outfit>, o: Outfit, s: string)
    ensures InScenario(pre + [o], s) == InScenario(pre, s) + (if o.scenario == s then [o] else [])
  {
    assert (pre + [o])[..|pre|] == pre;
  }

  /** Appending one outfit adds its scenario to the keys iff it is new and non-empty. */
  lemma StepKeys(pre: seq<Outfit>, o: Outfit)
    ensures ScenarioKeys(pre + [o]) ==
      if o.scenario == "" || o.scenario in ScenarioKeys(pre) then ScenarioKeys(pre) else ScenarioKeys(pre) + [o.scenario]
  {
    assert (pre + [o])[..|pre|] == pre;
  }

  /** A non-empty scenario that is not yet a key has an empty group. */
  lemma UnseenGroupEmpty(pre: seq<Outfit>, s: string)
    requires s != "" && s !in ScenarioKeys(pre)
    ensures InScenario(pre, s) == []
  {
  }

  /** `keys` and `groups` are the grouping of `pre`. */
  ghost predicate Grouped(keys: seq<string>, groups: map<string, seq<Outfit>>, pre: seq<Outfit>) {
    && keys == ScenarioKeys(pre)
    && (forall s :: s in groups <==> s in keys)
    && (forall s :: s in groups ==> groups[s] == InScenario(pre, s))
  }

  /** One step of the grouping pass extends the keys as `ScenarioKeys` does. */
  lemma GroupStepKeys(keys: seq<string>, groups: map<string, seq<Outfit>>, pre: seq<Outfit>, o: Outfit,
                      keys': seq<string>, groups': map<string, seq<Outfit>>)
    requires Grouped(keys, groups, pre)
    requires o.scenario == "" ==> keys' == keys && groups' == groups
    requires o.scenario != "" ==>
      && keys' == (if o.scenario in groups then keys else keys + [o.scenario])
      && groups'.Keys == groups.Keys + {o.scenario}
    ensures keys' == ScenarioKeys(pre + [o])
    ensures forall s :: s in groups' <==> s in keys'
  {
    StepKeys(pre, o);
  }

  /** One step of the grouping pass leaves scenario `s`'s list equal to its group in the longer prefix. */
  lemma GroupStepList(groups: map<string, seq<Outfit>>, pre: seq<Outfit>, o: Outfit, groups': map<string, seq<Outfit>>, s: string)
    requires s in groups ==> groups[s] == InScenario(pre, s)
    requires s == o.scenario && s !in groups ==> InScenario(pre, s) == []
    requires o.scenario == "" ==> groups' == groups
    requires o.scenario != "" ==>
      groups' == groups[o.scenario := (if o.scenario in groups then groups[o.scenario] else []) + [o]]
    requires s in groups' && s != ""
    ensures groups'[s] == InScenario(pre + [o], s)
  {
    StepGroup(pre, o, s);
  }

  /** One step of the grouping pass appends the outfit to its own scenario's list only. */
  lemma GroupStepLists(groups: map<string, seq<Outfit>>, pre: seq<Outfit>, o: Outfit, groups': map<string, seq<Outfit>>)
    requires forall s :: s in groups ==> groups[s] == InScenario(pre, s)
    requires "" !in groups
    requires o.scenario !in groups ==> o.scenario == "" || InScenario(pre, o.scenario) == []
    requires o.scenario == "" ==> groups' == groups
    requires o.scenario != "" ==>
      groups' == groups[o.scenario := (if o.scenario in groups then groups[o.scenario] else []) + [o]]
    ensures forall s :: s in groups' ==> groups'[s] == InScenario(pre + [o], s)
  {
    forall s | s in groups'
      ensures groups'[s] == InScenario(pre + [o], s)
    {
      GroupStepList(groups, pre, o, groups', s);
    }
  }

  /** One step of the grouping pass keeps `Grouped` for the extended prefix. */
  lemma GroupStep(keys: seq<string>, groups: map<string, seq<Outfit>>, pre: seq<Outfit>, o: Outfit, post: seq<Outfit>,
                  keys': seq<string>, groups': map<string, seq<Outfit>>)
    requires Grouped(keys, groups, pre) && post == pre + [o]
    requires o.scenario == "" ==> keys' == keys && groups' == groups
    requires o.scenario != "" ==>
      && keys' == (if o.scenario in groups then keys else keys + [o.scenario])
      && groups' == groups[o.scenario := (if o.scenario in groups then groups[o.scenario] else []) + [o]]
    ensures Grouped(keys', groups', post)
  {
    GroupStepKeys(keys, groups, pre, o, keys', groups');
    if o.scenario != "" && o.scenario !in groups {
      UnseenGroupEmpty(pre, o.scenario);
    }
    GroupStepLists(groups, pre, o, groups');
  }

  /**
    `groupedOutfits`: one pass over the gallery that pushes each outfit into its scenario's
    list, creating the list on first sight; outfits without a scenario are skipped.
  */
  method GroupOutfits(outfits: seq<Outfit>) returns (keys: seq<string>, groups: map<string, seq<Outfit>>)
    ensures keys == ScenarioKeys(outfits)
    ensures forall s :: s in groups <==> s in keys
    ensures forall s :: s in groups ==> groups[s] == InScenario(outfits, s)
  {
    keys := [];
    groups := map[];
    var i := 0;
    assert outfits[..i] == [];
    while i < |outfits|
      invariant 0 <= i <= |outfits|
      invariant Grouped(keys, groups, outfits[..i])
    {
      var o := outfits[i];
      ghost var pre := outfits[..i];
      var keys', groups' := keys, groups;
      if o.scenario != "" {
        var list: seq<Outfit> := [];
        if o.scenario in groups {
          list := groups[o.scenario];
        } else {
          keys' := keys + [o.scenario];
        }
        groups' := groups[o.scenario := list + [o]];
      }
      Seqs.PrefixStep(outfits, i);
      GroupStep(keys, groups, pre, o, outfits[..i + 1], keys', groups');
      keys, groups, i := keys', groups', i + 1;
    }
    assert outfits[..i] == outfits;
  }

  /** `Array.from(new Set(xs))`: the first occurrence of each element, in order. */
  function Dedup(s: seq<string>): (r: seq<string>)
    ensures Distinct(r)
    ensures forall x :: x in r <==> x in s
  {
    if s == [] then []
    else
      var d := Dedup(s[..|s| - 1]);
      var last := s[|s| - 1];
      assert forall x :: x in s ==> x in s[..|s| - 1] || x == last;
      if last in d then d else d + [last]
  }

  /** De-duplicating an extension keeps the de-duplicated original as a prefix. */
  lemma {:induction false} DedupPrefix(a: seq<string>, b: seq<string>)
    ensures |Dedup(a)| <= |Dedup(a + b)| && Dedup(a + b)[..|Dedup(a)|] == Dedup(a)
  {
    if b != [] {
      var b' := b[..|b| - 1];
      assert (a + b)[..|a + b| - 1] == a + b';
      DedupPrefix(a, b');
    } else {
      assert a + b == a;
    }
  }

  /** A list without repeats is its own de-duplication. */
  lemma {:induction false} DedupOfDistinct(s: seq<string>)
    requires Distinct(s)
    ensures Dedup(s) == s
  {
    if s != [] {
      DedupOfDistinct(s[..|s| - 1]);
    }
  }

  /** `availableScenarios`: the five defaults in order, then the gallery's other scenarios, without repeats. */
  function AvailableScenarios(outfits: seq<Outfit>): (r: seq<string>)
    ensures |r| >= 5 && r[..5] == DefaultScenarios
    ensures Distinct(r)
    ensures forall x :: x in r <==>
      x in DefaultScenarios || (x != "" && exists i :: 0 <= i < |outfits| && outfits[i].scenario == x)
  {
    DedupOfDistinct(DefaultScenarios);
    DedupPrefix(DefaultScenarios, ScenarioKeys(outfits));
    Dedup(DefaultScenarios + ScenarioKeys(outfits))
  }

  // ---------------------------------------------------------------------------
  // The composer: one item per category

  /** One key of `selectedItems`: a category and its item, or `null` once deselected. */
  datatype Slot = Slot(category: Category, item: Option<ClosetItem>)

  /** The AI verdict on a selection. */
  datatype Evaluation = Evaluation(score: real, review: string)

  /** The composer's state: the slots in key order, the verdict, the name field and the scenario. */
  datatype Composer = Composer(selected: seq<Slot>, evaluation: Option<Evaluation>, outfitName: string, scenario: string)

  /** Each category has at most one slot, and a slot's item belongs to its category. */
  predicate WellFormed(sel: seq<Slot>) {
    && (forall i, j :: 0 <= i < j < |sel| ==> sel[i].category != sel[j].category)
    && (forall i :: 0 <= i < |sel| && sel[i].item.Some? ==> sel[i].item.value.category == sel[i].category)
  }

  /** `selectedItems[c]`: the item selected for `c`, if any. */
  function SlotItem(sel: seq<Slot>, c: Category): (r: Option<ClosetItem>)
    ensures r.Some? ==> exists i :: 0 <= i < |sel| && sel[i].category == c && sel[i].item == r
    ensures WellFormed(sel) && r.Some? ==> r.value.category == c
    ensures (forall i :: 0 <= i < |sel| ==> sel[i].category != c) ==> r.None?
  {
    if sel == [] then None
    else if sel[0].category == c then sel[0].item
    else SlotItem(sel[1..], c)
  }

  /** The slot read is the first slot of that category, whenever there is one. */
  lemma {:induction false} SlotItemFound(sel: seq<Slot>, c: Category, i: nat)
    requires i < |sel| && sel[i].category == c
    requires forall j :: 0 <= j < i ==> sel[j].category != c
    ensures SlotItem(sel, c) == sel[i].item
  {
    if i > 0 {
      assert sel[1..][i - 1] == sel[i];
      assert forall j :: 0 <= j < i - 1 ==> sel[1..][j] == sel[j + 1];
      SlotItemFound(sel[1..], c, i - 1);
    }
  }

  /** `{ ...prev, [c]: v }`: an existing key keeps its position, a new key goes last. */
  function SetSlot(sel: seq<Slot>, c: Category, v: Option<ClosetItem>): (r: seq<Slot>)
    ensures (|r| == |sel| && |sel| > 0) || |r| == |sel| + 1
    ensures forall i :: 0 <= i < |sel| ==> r[i] == sel[i] || (sel[i].category == c && r[i] == Slot(c, v))
    ensures |r| == |sel| + 1 <==> r[|r| - 1] == Slot(c, v) && forall i :: 0 <= i < |sel| ==> sel[i].category != c
  {
    if sel == [] then [Slot(c, v)]
    else if sel[0].category == c then [Slot(c, v)] + sel[1..]
    else [sel[0]] + SetSlot(sel[1..], c, v)
  }

  /** After `SetSlot`, category `c` reads `v` and category `d != c` reads as before. */
  lemma {:induction false} SetSlotReadsAt(sel: seq<Slot>, c: Category, v: Option<ClosetItem>, d: Category)
    ensures SlotItem(SetSlot(sel, c, v), d) == if d == c then v else SlotItem(sel, d)
  {
    var r := SetSlot(sel, c, v);
    if sel == [] {
      assert r == [Slot(c, v)];
    } else if sel[0].category == c {
      assert r == [Slot(c, v)] + sel[1..];
      assert r[1..] == sel[1..];
    } else {
      var rest := SetSlot(sel[1..], c, v);
      SetSlotReadsAt(sel[1..], c, v, d);
      assert r == [sel[0]] + rest;
      assert r[0] == sel[0] && r[1..] == rest;
      if sel[0].category != d {
        assert SlotItem(r, d) == SlotItem(rest, d);
        assert SlotItem(sel, d) == SlotItem(sel[1..], d);
      }
    }
  }

  /** After `SetSlot`, category `c` reads `v` and every other category reads as before. */
  lemma SetSlotReads(sel: seq<Slot>, c: Category, v: Option<ClosetItem>)
    ensures SlotItem(SetSlot(sel, c, v), c) == v
    ensures forall d :: d != c ==> SlotItem(SetSlot(sel, c, v), d) == SlotItem(sel, d)
  {
    SetSlotReadsAt(sel, c, v, c);
    forall d | d != c
      ensures SlotItem(SetSlot(sel, c, v), d) == SlotItem(sel, d)
    {
      SetSlotReadsAt(sel, c, v, d);
    }
  }

  /** Slot `i` after `SetSlot` has the category slot `i` had, or `c` if it is the new last slot. */
  lemma SetSlotAt(sel: seq<Slot>, c: Category, v: Option<ClosetItem>, i: nat)
    requires i < |SetSlot(sel, c, v)|
    requires i < |sel| ==> sel[i].item.Some? ==> sel[i].item.value.category == sel[i].category
    requires v.Some? ==> v.value.category == c
    ensures var r := SetSlot(sel, c, v);
      && r[i].category == (if i < |sel| then sel[i].category else c)
      && (r[i].item.Some? ==> r[i].item.value.category == r[i].category)
  {
    var r := SetSlot(sel, c, v);
    if i < |sel| {
      assert r[i] == sel[i] || r[i] == Slot(c, v);
    } else {
      assert r[i] == Slot(c, v);
    }
  }

  /** Slot by slot, `SetSlot` keeps each category where it was and puts a new one last. */
  lemma SetSlotSlots(sel: seq<Slot>, c: Category, v: Option<ClosetItem>)
    requires WellFormed(sel) && (v.Some? ==> v.value.category == c)
    ensures var r := SetSlot(sel, c, v);
      forall i :: 0 <= i < |r| ==>
        && r[i].category == (if i < |sel| then sel[i].category else c)
        && (r[i].item.Some? ==> r[i].item.value.category == r[i].category)
  {
    var r := SetSlot(sel, c, v);
    forall i | 0 <= i < |r|
      ensures r[i].category == if i < |sel| then sel[i].category else c
      ensures r[i].item.Some? ==> r[i].item.value.category == r[i].category
    {
      SetSlotAt(sel, c, v, i);
    }
  }

  /** Setting a category's slot to an item of that category keeps the slots well-formed. */
  lemma SetSlotWellFormed(sel: seq<Slot>, c: Category, v: Option<ClosetItem>)
    requires WellFormed(sel) && (v.Some? ==> v.value.category == c)
    ensures WellFormed(SetSlot(sel, c, v))
  {
    var r := SetSlot(sel, c, v);
    SetSlotSlots(sel, c, v);
    forall i, j | 0 <= i < j < |r|
      ensures r[i].category != r[j].category
    {
      if j == |sel| {
        assert sel[i].category != c;
      }
    }
  }

  /** `handleSelectItem`: the item's own slot is cleared if it holds this item, else set to it; the verdict is dropped. */
  function SelectItem(comp: Composer, item: ClosetItem): (r: Composer)
    ensures var held := SlotItem(comp.selected, item.category);
      SlotItem(r.selected, item.category) == if held.Some? && held.value.id == item.id then None else Some(item)
    ensures forall d :: d != item.category ==> SlotItem(r.selected, d) == SlotItem(comp.selected, d)
    ensures WellFormed(comp.selected) ==> WellFormed(r.selected)
    ensures r.evaluation.None? && r.outfitName == comp.outfitName && r.scenario == comp.scenario
  {
    var held := SlotItem(comp.selected, item.category);
    var v := if held.Some? && held.value.id == item.id then None else Some(item);
    SetSlotReads(comp.selected, item.category, v);
    assert WellFormed(comp.selected) ==> WellFormed(SetSlot(comp.selected, item.category, v)) by {
      if WellFormed(comp.selected) {
        SetSlotWellFormed(comp.selected, item.category, v);
      }
    }
    comp.(selected := SetSlot(comp.selected, item.category, v), evaluation := None)
  }

  /** `selectedList`: the non-null slot values, in key order. */
  function SelectedList(sel: seq<Slot>): (r: seq<ClosetItem>)
    ensures |r| <= |sel|
    ensures forall x :: x in r <==> exists i :: 0 <= i < |sel| && sel[i].item == Some(x)
  {
    if sel == [] then []
    else
      assert forall i :: 0 < i < |sel| ==> sel[i] == sel[1..][i - 1];
      (if sel[0].item.Some? then [sel[0].item.value] else []) + SelectedList(sel[1..])
  }

  /** One slot lists its item, if it has one. */
  lemma SelectedListSingle(x: Slot)
    ensures SelectedList([x]) == if x.item.Some? then [x.item.value] else []
  {
    assert [x][1..] == [];
  }

  /** The list follows key order: the list of concatenated slots is the concatenation of their lists. */
  lemma {:induction false} SelectedListConcat(a: seq<Slot>, b: seq<Slot>)
    ensures SelectedList(a + b) == SelectedList(a) + SelectedList(b)
  {
    if a == [] {
      assert a + b == b;
    } else {
      var head := if a[0].item.Some? then [a[0].item.value] else [];
      assert (a + b)[0] == a[0] && (a + b)[1..] == a[1..] + b;
      assert SelectedList(a + b) == head + SelectedList(a[1..] + b);
      SelectedListConcat(a[1..], b);
      assert SelectedList(a) == head + SelectedList(a[1..]);
    }
  }

  /** The selection never holds two items of one category. */
  lemma {:induction false} OnePerCategory(sel: seq<Slot>)
    requires WellFormed(sel)
    ensures forall i, j :: 0 <= i < j < |SelectedList(sel)| ==>
      SelectedList(sel)[i].category != SelectedList(sel)[j].category
  {
    if sel != [] {
      OnePerCategory(sel[1..]);
      var rest := SelectedList(sel[1..]);
      if sel[0].item.Some? {
        forall j | 0 <= j < |rest| ensures rest[j].category != sel[0].category {
          assert rest[j] in rest;
          var k :| 0 <= k < |sel[1..]| && sel[1..][k].item == Some(rest[j]);
          assert sel[1..][k] == sel[k + 1];
        }
      }
    }
  }

  /** Selecting an item twice from a state whose slot does not hold it leaves that slot empty. */
  lemma SelectTwice(comp: Composer, item: ClosetItem)
    requires var held := SlotItem(comp.selected, item.category); held.None? || held.value.id != item.id
    ensures SlotItem(SelectItem(SelectItem(comp, item), item).selected, item.category).None?
  {
  }

  /** `handleEvaluate` may call the evaluator only with two or more items selected. */
  predicate CanEvaluate(comp: Composer) {
    |SelectedList(comp.selected)| >= 2
  }

  /**
    `handleEvaluate` with the evaluator's answer (`None` when it threw): the verdict is
    stored, and an empty name becomes "<scenario> Set".
  */
  function Evaluate(comp: Composer, answer: Option<Evaluation>): (r: Composer)
    ensures !CanEvaluate(comp) || answer.None? ==> r == comp
    ensures CanEvaluate(comp) && answer.Some? ==>
      && r.evaluation == answer && r.selected == comp.selected && r.scenario == comp.scenario
      && r.outfitName == (if comp.outfitName == "" then comp.scenario + " Set" else comp.outfitName)
  {
    if !CanEvaluate(comp) then comp
    else match answer
      case None => comp
      case Some(ev) => comp.(evaluation := answer, outfitName := if comp.outfitName == "" then comp.scenario + " Set" else comp.outfitName)
  }

  const DefaultName: string := "New Look"
  const DefaultScore: real := 85.0
  const DefaultReview: string := "Manually styled look."

  /**
    The outfit `handleSave` hands to the gallery, or `None` when nothing is selected.
    `localUrl` is the locally drawn preview.
  */
  function SavedOutfit(comp: Composer, now: nat, localUrl: string): (r: Option<Outfit>)
    ensures r.None? <==> SelectedList(comp.selected) == []
    ensures r.Some? ==>
      && r.value.id == "outfit-" + Ids.NatToString(now) && r.value.createdAt == now
      && r.value.items == SelectedList(comp.selected) && r.value.scenario == comp.scenario
      && r.value.name == (if comp.outfitName != "" then comp.outfitName else DefaultName)
      && r.value.score == (if comp.evaluation.Some? && comp.evaluation.value.score != 0.0 then comp.evaluation.value.score else DefaultScore)
      && r.value.review == (if comp.evaluation.Some? && comp.evaluation.value.review != "" then comp.evaluation.value.review else DefaultReview)
      && r.value.previewUrl.None? && r.value.localPreviewUrl == Some(localUrl)
      && r.value.previewStatus == Some(Generating)
  {
    var list := SelectedList(comp.selected);
    if list == [] then None
    else
      var ev := comp.evaluation;
      Some(Outfit(
        "outfit-" + Ids.NatToString(now),
        if comp.outfitName != "" then comp.outfitName else DefaultName,
        comp.scenario,
        list,
        if ev.Some? && ev.value.score != 0.0 then ev.value.score else DefaultScore,
        if ev.Some? && ev.value.review != "" then ev.value.review else DefaultReview,
        now, None, Some(localUrl), Some(Generating)))
  }

  /** The composer after a save: an empty slot map (`{}`), no verdict and no name; the scenario stays. */
  function AfterSave(comp: Composer): (r: Composer)
    ensures SelectedList(comp.selected) == [] ==> r == comp
    ensures SelectedList(comp.selected) != [] ==>
      r.selected == [] && r.evaluation.None? && r.outfitName == "" && r.scenario == comp.scenario
  {
    if SelectedList(comp.selected) == [] then comp else Composer([], None, "", comp.scenario)
  }

  // ---------------------------------------------------------------------------
  // Preview progress

  const FinalProgress: int := 92

  /** `STAGES`: progress thresholds and the message shown from each on. */
  const Stages: seq<(int, string)> := [
    (0, "Initializing AI..."), (15, "Designing Silhouette..."), (35, "Texture Synthesis..."),
    (60, "Adjusting Fit..."), (80, "Cinematic Rendering..."), (92, "Final Polish...")]

  /** `Math.min(raw, 92)`. */
  function DisplayProgress(raw: int): (p: int)
    ensures p <= FinalProgress && p <= raw
    ensures p == raw || p == FinalProgress
  {
    if raw < FinalProgress then raw else FinalProgress
  }

  /** `[...stages].reverse().find(s => p >= s.p)`, as an index: the last stage reached. */
  function StageAt(stages: seq<(int, string)>, p: int): (r: Option<nat>)
    ensures r.Some? ==> r.value < |stages| && stages[r.value].0 <= p
    ensures r.Some? ==> forall j :: r.value < j < |stages| ==> stages[j].0 > p
    ensures r.None? <==> forall j :: 0 <= j < |stages| ==> stages[j].0 > p
  {
    if stages == [] then None
    else if stages[|stages| - 1].0 <= p then Some(|stages| - 1)
    else StageAt(stages[..|stages| - 1], p)
  }

  /** The message shown at progress `p`, if a stage has been reached. */
  function StageMessage(p: int): (m: Option<string>)
    ensures p >= 0 ==> m.Some?
    ensures p < 0 ==> m.None?
  {
    assert Stages[0].0 == 0;
    match StageAt(Stages, p)
    case None => None
    case Some(k) => Some(Stages[k].1)
  }

  /** Messages only move forward as progress grows. */
  lemma StageMonotone(stages: seq<(int, string)>, p: int, q: int)
    requires p <= q && StageAt(stages, p).Some?
    ensures StageAt(stages, q).Some? && StageAt(stages, p).value <= StageAt(stages, q).value
  {
  }

  /** Once the raw progress reaches 92 the bar stops there, on the last message. */
  lemma FinalStage(raw: int)
    requires raw >= FinalProgress
    ensures DisplayProgress(raw) == FinalProgress && StageMessage(DisplayProgress(raw)) == Some("Final Polish...")
  {
  }

  // ---------------------------------------------------------------------------
  // Preview generation

  predicate IsGenerating(o: Outfit) {
    o.previewStatus == Some(Generating)
  }

  /** `outfits.find(o => o.previewStatus === 'generating')`, as an index. */
  function FirstGenerating(outfits: seq<Outfit>): (r: Option<nat>)
    ensures r.Some? ==> r.value < |outfits| && IsGenerating(outfits[r.value])
    ensures r.Some? ==> forall j :: 0 <= j < r.value ==> !IsGenerating(outfits[j])
    ensures r.None? <==> forall j :: 0 <= j < |outfits| ==> !IsGenerating(outfits[j])
  {
    if outfits == [] then None
    else if IsGenerating(outfits[0]) then Some(0)
    else match FirstGenerating(outfits[1..]) {
      case None => None
      case Some(k) => Some(k + 1)
    }
  }

  /** The generating outfit once its preview call has ended: done with the new URL, or failed. */
  function PreviewOutcome(o: Outfit, aiUrl: Option<string>): (r: Outfit)
    ensures aiUrl.Some? ==> r.previewStatus == Some(Done) && r.previewUrl == aiUrl
    ensures aiUrl.None? ==> r.previewStatus == Some(Failed) && r.previewUrl == o.previewUrl
    ensures r.(previewUrl := o.previewUrl, previewStatus := o.previewStatus) == o
  {
    match aiUrl
    case Some(url) => o.(previewUrl := Some(url), previewStatus := Some(Done))
    case None => o.(previewStatus := Some(Failed))
  }

  /**
    The gallery's generation effect with the call's result (`None` when it threw): the first
    generating outfit is replaced, through `onUpdateOutfit`, by its finished form.
  */
  function PreviewFinished(outfits: seq<Outfit>, aiUrl: Option<string>): (r: seq<Outfit>)
    ensures |r| == |outfits|
    ensures FirstGenerating(outfits).None? ==> r == outfits
    ensures FirstGenerating(outfits).Some? ==> var g := outfits[FirstGenerating(outfits).value];
      forall i :: 0 <= i < |outfits| ==> r[i] == if outfits[i].id == g.id then PreviewOutcome(g, aiUrl) else outfits[i]
  {
    match FirstGenerating(outfits)
    case None => outfits
    case Some(k) => Seqs.ReplaceById(outfits, OutfitId, PreviewOutcome(outfits[k], aiUrl))
  }

  function CountGenerating(outfits: seq<Outfit>): nat {
    if outfits == [] then 0 else (if IsGenerating(outfits[0]) then 1 else 0) + CountGenerating(outfits[1..])
  }

  /** Pointwise fewer generating outfits, and one fewer somewhere, means fewer in all. */
  lemma {:induction false} FewerGenerating(before: seq<Outfit>, after: seq<Outfit>, k: nat)
    requires |after| == |before| && k < |before|
    requires forall i :: 0 <= i < |before| && IsGenerating(after[i]) ==> IsGenerating(before[i])
    requires IsGenerating(before[k]) && !IsGenerating(after[k])
    ensures CountGenerating(after) < CountGenerating(before)
  {
    if k == 0 {
      CountMonotone(before[1..], after[1..]);
    } else {
      FewerGenerating(before[1..], after[1..], k - 1);
    }
  }

  lemma {:induction false} CountMonotone(before: seq<Outfit>, after: seq<Outfit>)
    requires |after| == |before|
    requires forall i :: 0 <= i < |before| && IsGenerating(after[i]) ==> IsGenerating(before[i])
    ensures CountGenerating(after) <= CountGenerating(before)
  {
    if before != [] {
      CountMonotone(before[1..], after[1..]);
    }
  }

  /** Every finished generation leaves fewer outfits generating, so the effect runs out of work. */
  lemma GenerationProgresses(outfits: seq<Outfit>, aiUrl: Option<string>)
    requires FirstGenerating(outfits).Some?
    ensures CountGenerating(PreviewFinished(outfits, aiUrl)) < CountGenerating(outfits)
  {
    FewerGenerating(outfits, PreviewFinished(outfits, aiUrl), FirstGenerating(outfits).value);
  }
}
