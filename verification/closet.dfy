/**
  The closet view (components/Closet.tsx): the tag tally, the category/tag filter, the
  per-category counts, and the detail editor's custom-attribute list.
*/
module Closet {
  import opened Wrappers
  import opened Types
  import Seqs

  // ---------------------------------------------------------------------------
  // Tag tally

  /** How many times `t` occurs in `tags`. */
  function CountIn(tags: seq<string>, t: string): (n: nat)
    ensures n <= |tags|
    ensures n > 0 <==> t in tags
  {
    if tags == [] then 0
    else CountIn(tags[..|tags| - 1], t) + (if tags[|tags| - 1] == t then 1 else 0)
  }

  /** How many times `t` occurs across all items' tag lists, duplicates inside one item included. */
  function Occurrences(items: seq<ClosetItem>, t: string): nat {
    if items == [] then 0
    else Occurrences(items[..|items| - 1], t) + CountIn(items[|items| - 1].tags, t)
  }

  /** A tag is tallied iff some item carries it. */
  lemma {:induction false} OccursIffTagged(items: seq<ClosetItem>, t: string)
    ensures Occurrences(items, t) > 0 <==> exists i :: 0 <= i < |items| && t in items[i].tags
  {
    if items != [] {
      var init := items[..|items| - 1];
      OccursIffTagged(init, t);
      if exists i :: 0 <= i < |init| && t in init[i].tags {
        var i :| 0 <= i < |init| && t in init[i].tags;
        assert items[i] == init[i];
      }
      if exists i :: 0 <= i < |items| && t in items[i].tags {
        var i :| 0 <= i < |items| && t in items[i].tags;
        if i < |init| {
          assert init[i] == items[i];
        }
      }
    }
  }

  /** The tally of a concatenation is the sum of the tallies. */
  lemma {:induction false} OccurrencesConcat(a: seq<ClosetItem>, b: seq<ClosetItem>, t: string)
    ensures Occurrences(a + b, t) == Occurrences(a, t) + Occurrences(b, t)
  {
    if b == [] {
      assert a + b == a;
    } else {
      var b' := b[..|b| - 1];
      assert (a + b)[..|a + b| - 1] == a + b';
      OccurrencesConcat(a, b', t);
    }
  }

  /** `counts` holds, for every tag, its occurrences in `items` plus those in `extra`, and no other key. */
  ghost predicate Tally(counts: map<string, nat>, items: seq<ClosetItem>, extra: seq<string>) {
    forall t :: (t in counts <==> Occurrences(items, t) + CountIn(extra, t) > 0)
      && (t in counts ==> counts[t] == Occurrences(items, t) + CountIn(extra, t))
  }

  /** Counting one more tag keeps the tally. */
  lemma TallyTag(counts: map<string, nat>, items: seq<ClosetItem>, extra: seq<string>, tag: string)
    requires Tally(counts, items, extra)
    ensures Tally(counts[tag := (if tag in counts then counts[tag] else 0) + 1], items, extra + [tag])
  {
    var e := extra + [tag];
    assert e[..|e| - 1] == extra;
  }

  /** Once an item's tags are all counted, the item joins the tallied prefix. */
  lemma TallyItem(counts: map<string, nat>, items: seq<ClosetItem>, item: ClosetItem)
    requires Tally(counts, items, item.tags)
    ensures Tally(counts, items + [item], [])
  {
    var all := items + [item];
    assert all[..|all| - 1] == items;
  }

  /** The inner `forEach` of `allTagsWithCounts`: counts each tag of one item into `counts`. */
  method CountTags(counts: map<string, nat>, ghost done: seq<ClosetItem>, tags: seq<string>) returns (counts': map<string, nat>)
    requires Tally(counts, done, [])
    ensures Tally(counts', done, tags)
  {
    counts' := counts;
    var j := 0;
    while j < |tags|
      invariant 0 <= j <= |tags|
      invariant Tally(counts', done, tags[..j])
    {
      var tag := tags[j];
      TallyTag(counts', done, tags[..j], tag);
      Seqs.PrefixStep(tags, j);
      counts' := counts'[tag := (if tag in counts' then counts'[tag] else 0) + 1];
      j := j + 1;
    }
    assert tags[..j] == tags;
  }

  /** `allTagsWithCounts`: the nested `forEach` that counts every tag of every item. */
  method AllTagsWithCounts(items: seq<ClosetItem>) returns (counts: map<string, nat>)
    ensures forall t :: t in counts <==> Occurrences(items, t) > 0
    ensures forall t :: t in counts ==> counts[t] == Occurrences(items, t)
  {
    counts := map[];
    var i := 0;
    while i < |items|
      invariant 0 <= i <= |items|
      invariant Tally(counts, items[..i], [])
    {
      counts := CountTags(counts, items[..i], items[i].tags);
      TallyItem(counts, items[..i], items[i]);
      Seqs.PrefixStep(items, i);
      i := i + 1;
    }
    assert items[..i] == items;
  }

  // ---------------------------------------------------------------------------
  // Filtering and counting

  /** The selected category button: `'All'` or one category. */
  datatype CategoryFilter = All | Only(category: Category) {
    /** The string the button compares with `item.category`. */
    function Name(): (s: string)
      ensures All? ==> s == "All"
      ensures Only? ==> s == category.Value()
      ensures s == "All" <==> All?
    {
      match this
      case All => "All"
      case Only(c) => c.Value()
    }
  }

  /** `categories`: `'All'` followed by the enum values in order. */
  const CategoryButtons: seq<CategoryFilter> := [All] + seq(|AllCategories|, i requires 0 <= i < |AllCategories| => Only(AllCategories[i]))

  /** Whether one item passes the filter; the empty tag, like no tag, filters nothing. */
  predicate Matches(item: ClosetItem, cat: CategoryFilter, tag: Option<string>) {
    (cat.All? || item.category == cat.category) && (!Truthy(tag) || tag.value in item.tags)
  }

  /** `filteredItems`. */
  function FilterItems(items: seq<ClosetItem>, cat: CategoryFilter, tag: Option<string>): (r: seq<ClosetItem>)
    ensures forall i :: 0 <= i < |r| ==>
              r[i] in items && (cat.All? || r[i].category == cat.category) && (!Truthy(tag) || tag.value in r[i].tags)
    ensures forall i ::
              (0 <= i < |items| && (cat.All? || items[i].category == cat.category) && (!Truthy(tag) || tag.value in items[i].tags))
              ==> items[i] in r
  {
    Seqs.Filter(items, (it: ClosetItem) => Matches(it, cat, tag))
  }

  /** With `'All'` and no tag selected, the whole closet is shown in order. */
  lemma ShowAll(items: seq<ClosetItem>, tag: Option<string>)
    requires !Truthy(tag)
    ensures FilterItems(items, All, tag) == items
  {
    Seqs.FilterKeepsAll(items, (it: ClosetItem) => Matches(it, All, tag));
  }

  /** The filter keeps the relative order of what it keeps. */
  lemma FilterItemsConcat(a: seq<ClosetItem>, b: seq<ClosetItem>, cat: CategoryFilter, tag: Option<string>)
    ensures FilterItems(a + b, cat, tag) == FilterItems(a, cat, tag) + FilterItems(b, cat, tag)
  {
    Seqs.FilterConcat(a, b, (it: ClosetItem) => Matches(it, cat, tag));
  }

  /** `getCategoryCount`: the closet size for `'All'`, else the items of that category. */
  function CategoryCount(items: seq<ClosetItem>, cat: CategoryFilter): (n: nat)
    ensures cat.All? ==> n == |items|
    ensures n <= |items|
  {
    match cat
    case All => |items|
    case Only(c) => Seqs.Count(items, (i: ClosetItem) => i.category == c)
  }

  /** With no tag selected, a category's count is the length of the list that category's button shows. */
  lemma {:induction false} CategoryCountIsShown(items: seq<ClosetItem>, c: Category)
    ensures CategoryCount(items, Only(c)) == |FilterItems(items, Only(c), None)|
  {
    if items != [] {
      CategoryCountIsShown(items[1..], c);
    }
  }

  /** The five category counts add up to the `'All'` count. */
  lemma {:induction false} CategoryCountsSum(items: seq<ClosetItem>)
    ensures CategoryCount(items, Only(Tops)) + CategoryCount(items, Only(Bottoms)) + CategoryCount(items, Only(Dresses))
          + CategoryCount(items, Only(Shoes)) + CategoryCount(items, Only(Accessories)) == CategoryCount(items, All)
  {
    if items != [] {
      CategoryCountsSum(items[1..]);
    }
  }

  /** The tag button's click: clicking the selected tag clears the selection, any other selects it. */
  function ToggleTag(selected: Option<string>, tag: string): (r: Option<string>)
    ensures r.None? <==> selected == Some(tag)
    ensures r.Some? ==> r.value == tag
  {
    if selected == Some(tag) then None else Some(tag)
  }

  /** Clicking the same tag twice from no selection ends with no selection. */
  lemma ToggleTagTwice(tag: string)
    ensures ToggleTag(ToggleTag(None, tag), tag) == None
  {
  }

  // ---------------------------------------------------------------------------
  // The detail editor

  /**
    `handleOpenDetail`: an item still being processed does not open; otherwise the edited
    copy has an attribute list, empty when the item had none.
  */
  function OpenDetail(item: ClosetItem): (edited: Option<ClosetItem>)
    ensures edited.None? <==> item.isProcessing == Some(true)
    ensures edited.Some? ==>
              && edited.value.customAttributes.Some?
              && (item.customAttributes.Some? ==> edited.value == item)
              && (item.customAttributes.None? ==> edited.value.customAttributes == Some([]))
              && edited.value.(customAttributes := item.customAttributes) == item
  {
    if item.isProcessing == Some(true) then None
    else Some(item.(customAttributes := Some(item.customAttributes.GetOr([]))))
  }

  const DefaultAttribute: CustomAttribute := CustomAttribute("Material", "Cotton")

  /** The edited item's attribute list, `[]` when it has none. */
  function Attributes(item: ClosetItem): seq<CustomAttribute> {
    item.customAttributes.GetOr([])
  }

  /** `addAttribute`: append `Material: Cotton`; nothing happens without an edited item. */
  function AddAttribute(edited: Option<ClosetItem>): (r: Option<ClosetItem>)
    ensures r.Some? <==> edited.Some?
    ensures r.Some? ==> var before := Attributes(edited.value); var after := r.value.customAttributes;
      && after.Some? && |after.value| == |before| + 1
      && after.value[..|before|] == before && after.value[|before|] == DefaultAttribute
      && r.value.(customAttributes := edited.value.customAttributes) == edited.value
  {
    match edited
    case None => None
    case Some(e) => Some(e.(customAttributes := Some(Attributes(e) + [DefaultAttribute])))
  }

  /** One attribute with one field replaced. */
  function WithField(a: CustomAttribute, field: AttributeField, value: string): CustomAttribute {
    match field
    case Label => a.(labelText := value)
    case Value => a.(value := value)
  }

  /**
    `updateAttribute`: change one field of the index-th attribute. Nothing happens without
    an edited item or without a list; the editor only offers indices of the list.
  */
  function UpdateAttribute(edited: Option<ClosetItem>, index: nat, field: AttributeField, value: string): (r: Option<ClosetItem>)
    requires edited.Some? && edited.value.customAttributes.Some? ==> index < |edited.value.customAttributes.value|
    ensures edited.None? || edited.value.customAttributes.None? ==> r == edited
    ensures edited.Some? && edited.value.customAttributes.Some? ==>
      var before := edited.value.customAttributes.value;
      && r.Some? && r.value.customAttributes.Some?
      && var after := r.value.customAttributes.value;
      && |after| == |before|
      && (forall k :: 0 <= k < |before| && k != index ==> after[k] == before[k])
      && (field.Label? ==> after[index].labelText == value && after[index].value == before[index].value)
      && (field.Value? ==> after[index].value == value && after[index].labelText == before[index].labelText)
      && r.value.(customAttributes := edited.value.customAttributes) == edited.value
  {
    match edited
    case None => None
    case Some(e) =>
      match e.customAttributes
      case None => edited
      case Some(attrs) => Some(e.(customAttributes := Some(attrs[index := WithField(attrs[index], field, value)])))
  }

  /** Typing the value a field already has changes nothing. */
  lemma UpdateWithSameValue(e: ClosetItem, index: nat, field: AttributeField)
    requires e.customAttributes.Some? && index < |e.customAttributes.value|
    ensures var a := e.customAttributes.value[index];
            UpdateAttribute(Some(e), index, field, if field.Label? then a.labelText else a.value) == Some(e)
  {
    var attrs := e.customAttributes.value;
    var a := attrs[index];
    assert attrs[index := WithField(a, field, if field.Label? then a.labelText else a.value)] == attrs;
  }

  /** The index-th element dropped: `list.filter((_, i) => i !== index)`. */
  function WithoutIndex<T>(s: seq<T>, index: nat): (r: seq<T>)
    ensures index < |s| ==> |r| == |s| - 1 && r == s[..index] + s[index + 1..]
    ensures index >= |s| ==> r == s
  {
    if s == [] then []
    else if index == 0 then s[1..]
    else [s[0]] + WithoutIndex(s[1..], index - 1)
  }

  /** `removeAttribute`: nothing happens without an edited item or without a list. */
  function RemoveAttribute(edited: Option<ClosetItem>, index: nat): (r: Option<ClosetItem>)
    ensures edited.None? || edited.value.customAttributes.None? ==> r == edited
    ensures edited.Some? && edited.value.customAttributes.Some? ==>
      var before := edited.value.customAttributes.value;
      && r.Some? && r.value.customAttributes.Some?
      && var after := r.value.customAttributes.value;
      && (index < |before| ==> |after| == |before| - 1 && after == before[..index] + before[index + 1..])
      && (index >= |before| ==> after == before)
      && r.value.(customAttributes := edited.value.customAttributes) == edited.value
  {
    match edited
    case None => None
    case Some(e) =>
      match e.customAttributes
      case None => edited
      case Some(attrs) => Some(e.(customAttributes := Some(WithoutIndex(attrs, index))))
  }

  /** Adding an attribute and removing the last one gives back the list the editor had. */
  lemma AddThenRemove(e: ClosetItem)
    requires e.customAttributes.Some?
    ensures RemoveAttribute(AddAttribute(Some(e)), |e.customAttributes.value|) == Some(e)
  {
    var attrs := e.customAttributes.value;
    var added := AddAttribute(Some(e)).value;
    assert added.customAttributes.value == attrs + [DefaultAttribute];
    assert WithoutIndex(attrs + [DefaultAttribute], |attrs|) == attrs;
    assert added.(customAttributes := Some(attrs)) == e;
  }
}
