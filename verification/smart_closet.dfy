/**
  The second prototype's closet screen (smart-my-closet-ai/components/ClosetSection.tsx):
  the category filter and its button counts, the record built for a new upload, and the
  edit dialog's comma-separated tag field.
*/
module SmartCloset {
  import opened Wrappers
  import opened SmartTypes
  import Seqs
  import Ids
  import opened Strings
  import Types

  /** The filter buttons: `'All'` followed by the five category strings in declaration order. */
  function FilterButtons(): (r: seq<string>)
    ensures |r| == 6 && r[0] == "All"
    ensures forall i :: 0 <= i < 5 ==> r[i + 1] == AllCategories[i].Value()
  {
    ["All", Tops.Value(), Bottoms.Value(), Dresses.Value(), Shoes.Value(), Accessories.Value()]
  }

  /** The items the grid shows for the selected filter string. */
  function FilterItems(items: seq<ClosetItem>, filter: string): (r: seq<ClosetItem>)
    ensures filter == "All" ==> r == items
    ensures forall i :: 0 <= i < |r| ==> r[i] in items && (filter == "All" || r[i].category.Value() == filter)
    ensures forall i :: 0 <= i < |items| && (filter == "All" || items[i].category.Value() == filter) ==> items[i] in r
  {
    if filter == "All" then items else Seqs.Filter(items, (i: ClosetItem) => i.category.Value() == filter)
  }

  /** The number on a filter button: the closet size for `'All'`, else the items of that category. */
  function ButtonCount(items: seq<ClosetItem>, button: string): (n: nat)
    ensures button == "All" ==> n == |items|
    ensures n <= |items|
  {
    if button == "All" then |items| else Seqs.Count(items, (i: ClosetItem) => i.category.Value() == button)
  }

  /** Every button's number is the length of the grid that button selects. */
  lemma CountIsShown(items: seq<ClosetItem>, button: string)
    ensures ButtonCount(items, button) == |FilterItems(items, button)|
  {
    if button != "All" {
      Seqs.FilterLength(items, (i: ClosetItem) => i.category.Value() == button);
    }
  }

  /** Filtering keeps the grid in closet order: it distributes over concatenation. */
  lemma FilterKeepsOrder(a: seq<ClosetItem>, b: seq<ClosetItem>, filter: string)
    ensures FilterItems(a + b, filter) == FilterItems(a, filter) + FilterItems(b, filter)
  {
    if filter != "All" {
      Seqs.FilterConcat(a, b, (i: ClosetItem) => i.category.Value() == filter);
    }
  }

  /** A category button's number splits into the first garment and the rest. */
  lemma CountStep(items: seq<ClosetItem>, button: string)
    requires items != [] && button != "All"
    ensures ButtonCount(items, button)
         == (if items[0].category.Value() == button then 1 else 0) + ButtonCount(items[1..], button)
  {
  }

  /** A garment's category string matches exactly one of the five category buttons. */
  lemma OneButtonMatches(c: Category)
    ensures (if c.Value() == "Tops" then 1 else 0) + (if c.Value() == "Bottoms" then 1 else 0)
          + (if c.Value() == "Dresses" then 1 else 0) + (if c.Value() == "Shoes" then 1 else 0)
          + (if c.Value() == "Accessories" then 1 else 0) == 1
  {
  }

  /** The five category buttons' numbers add up to the `'All'` number. */
  lemma {:induction false} CountsSum(items: seq<ClosetItem>)
    ensures ButtonCount(items, "Tops") + ButtonCount(items, "Bottoms") + ButtonCount(items, "Dresses")
          + ButtonCount(items, "Shoes") + ButtonCount(items, "Accessories") == ButtonCount(items, "All")
  {
    if items != [] {
      CountsSum(items[1..]);
      CountStep(items, "Tops");
      CountStep(items, "Bottoms");
      CountStep(items, "Dresses");
      CountStep(items, "Shoes");
      CountStep(items, "Accessories");
      OneButtonMatches(items[0].category);
      assert ButtonCount(items, "All") == 1 + ButtonCount(items[1..], "All");
    }
  }

  /**
    What the garment analysis returned; a field it left out is `None`. The analysis schema
    restricts the category to the enum's strings.
  */
  datatype Metadata = Metadata(category: Option<Category>, tags: Option<seq<string>>, color: Option<string>)

  /**
    The record built for an upload taken at `now` milliseconds: the id is the decimal
    timestamp, the background-free image is shown, the photo as read is kept, and an
    absent category, tag list or colour (or an empty colour) falls back to Tops, no tags
    and `'white'`.
  */
  function NewItem(meta: Metadata, now: nat, transparent: string, original: string): (r: ClosetItem)
    ensures r.id == Ids.NatToString(now)
    ensures r.category == (if meta.category.Some? then meta.category.value else Tops)
    ensures r.tags == (if meta.tags.Some? then meta.tags.value else [])
    ensures r.color == (if meta.color.Some? && meta.color.value != "" then meta.color.value else "white")
    ensures r.imageUrl == transparent && r.originalImageUrl == Some(original)
  {
    ClosetItem(
      Ids.NatToString(now),
      meta.category.GetOr(Tops),
      meta.tags.GetOr([]),
      if Types.Truthy(meta.color) then meta.color.value else "white",
      transparent,
      Some(original))
  }

  /** Uploads taken at different milliseconds get different ids. */
  lemma NewItemIdsDistinct(m1: Metadata, m2: Metadata, t1: nat, t2: nat, a: string, b: string, c: string, d: string)
    requires t1 != t2
    ensures NewItem(m1, t1, a, b).id != NewItem(m2, t2, c, d).id
  {
    if Ids.NatToString(t1) == Ids.NatToString(t2) {
      Ids.NatToStringInjective(t1, t2);
    }
  }

  /** The text the edit dialog's tag field starts with. */
  function TagsString(item: ClosetItem): string
  {
    Join(item.tags, ", ")
  }

  /** `parts.map(tag => tag.trim())`. */
  function TrimAll(parts: seq<string>): (r: seq<string>)
    ensures |r| == |parts|
    ensures forall i :: 0 <= i < |parts| ==> r[i] == Trim(parts[i])
  {
    if parts == [] then [] else [Trim(parts[0])] + TrimAll(parts[1..])
  }

  function NonEmpty(t: string): bool { t != "" }

  /** A tag the dialog can produce: non-empty, trimmed and without a comma. */
  predicate CleanTag(t: string) {
    t != "" && IsTrimmed(t) && ',' !in t
  }

  /** Every piece that survives the dialog's parsing is a clean tag. */
  lemma ParsedPiecesClean(s: string)
    ensures forall i :: 0 <= i < |Seqs.Filter(TrimAll(Split(s, ',')), NonEmpty)| ==>
      CleanTag(Seqs.Filter(TrimAll(Split(s, ',')), NonEmpty)[i])
  {
    var pieces := Split(s, ',');
    var trimmed := TrimAll(pieces);
    var r := Seqs.Filter(trimmed, NonEmpty);
    forall i | 0 <= i < |r| ensures CleanTag(r[i]) {
      assert r[i] in trimmed;
      var j :| 0 <= j < |trimmed| && trimmed[j] == r[i];
      TrimKeepsOut(pieces[j], ',');
    }
  }

  /** The tags saved from the field: split on commas, each piece trimmed, empty pieces dropped. */
  function ParseTags(s: string): (r: seq<string>)
    ensures forall i :: 0 <= i < |r| ==> CleanTag(r[i])
    ensures |r| <= |Split(s, ',')|
  {
    ParsedPiecesClean(s);
    Seqs.Filter(TrimAll(Split(s, ',')), NonEmpty)
  }

  /** `handleSave`: the edited garment with its tags replaced by the parsed field. */
  function SaveEdit(edited: ClosetItem, tagsString: string): (r: ClosetItem)
    ensures r.tags == ParseTags(tagsString)
    ensures r.(tags := edited.tags) == edited
  {
    edited.(tags := ParseTags(tagsString))
  }

  /** `" " + t` for every tag. */
  function Spaced(tags: seq<string>): (r: seq<string>)
    ensures |r| == |tags|
    ensures forall i :: 0 <= i < |tags| ==> r[i] == " " + tags[i]
  {
    if tags == [] then [] else [" " + tags[0]] + Spaced(tags[1..])
  }

  /** A prefix on the first piece of a join is a prefix of the whole join. */
  lemma JoinFirstPrefix(p: string, a: string, rest: seq<string>, sep: string)
    ensures Join([p + a] + rest, sep) == p + Join([a] + rest, sep)
  {
    if rest != [] {
      assert ([p + a] + rest)[1..] == rest;
      assert ([a] + rest)[1..] == rest;
    }
  }

  /** Joining with `", "` is joining with `","` after putting a space in front of every tag but the first. */
  lemma {:induction false} JoinCommaSpace(tags: seq<string>)
    requires |tags| >= 1
    ensures Join(tags, ", ") == Join([tags[0]] + Spaced(tags[1..]), ",")
  {
    if |tags| == 1 {
      assert [tags[0]] + Spaced(tags[1..]) == [tags[0]];
    } else {
      var rest := tags[1..];
      JoinCommaSpace(rest);
      assert rest[1..] == tags[2..];
      var tail := Spaced(tags[2..]);
      assert Spaced(rest) == [" " + rest[0]] + tail;
      JoinFirstPrefix(" ", rest[0], tail, ",");
      var left := [tags[0]] + Spaced(rest);
      assert left[1..] == Spaced(rest);
      assert |left| >= 2;
      assert ", " == "," + " ";
    }
  }

  /** Trimming the pieces of the `","` split gives back the tags. */
  lemma TrimPieces(tags: seq<string>)
    requires |tags| >= 1
    requires forall i :: 0 <= i < |tags| ==> CleanTag(tags[i])
    ensures TrimAll([tags[0]] + Spaced(tags[1..])) == tags
  {
    var pieces := [tags[0]] + Spaced(tags[1..]);
    TrimOfTrimmed(tags[0]);
    forall i | 1 <= i < |tags| ensures Trim(pieces[i]) == tags[i] {
      assert pieces[i] == [' '] + tags[i];
      TrimSkipsLeadingSpace(' ', tags[i]);
      TrimOfTrimmed(tags[i]);
    }
  }

  /**
    Saving the dialog without touching the tag field keeps the tags, whenever every tag
    is non-empty, trimmed and comma-free.
  */
  lemma ParseTagsString(tags: seq<string>)
    requires forall i :: 0 <= i < |tags| ==> CleanTag(tags[i])
    ensures ParseTags(Join(tags, ", ")) == tags
  {
    if tags == [] {
      assert Split("", ',') == [""];
      assert TrimAll([""]) == [""];
    } else {
      var pieces := [tags[0]] + Spaced(tags[1..]);
      JoinCommaSpace(tags);
      forall i | 0 <= i < |pieces| ensures ',' !in pieces[i] {
        if i > 0 {
          assert pieces[i] == [' '] + tags[i];
        }
      }
      SplitJoin(pieces, ',');
      TrimPieces(tags);
      Seqs.FilterKeepsAll(tags, NonEmpty);
    }
  }

  /** Opening and saving the dialog without edits gives back the garment. */
  lemma SaveUnedited(item: ClosetItem)
    requires forall i :: 0 <= i < |item.tags| ==> CleanTag(item.tags[i])
    ensures SaveEdit(item, TagsString(item)) == item
  {
    ParseTagsString(item.tags);
  }

  /** Saving, reopening and saving again changes nothing further. */
  lemma SaveTwice(item: ClosetItem, field: string)
    ensures SaveEdit(SaveEdit(item, field), TagsString(SaveEdit(item, field))) == SaveEdit(item, field)
  {
    SaveUnedited(SaveEdit(item, field));
  }
}
