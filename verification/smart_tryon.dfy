/**
  The second prototype's try-on screen (smart-my-closet-ai/components/TryOnSection.tsx):
  equipping and unequipping garments on the figure, and saving the equipped set as an
  outfit.
*/
module SmartTryOn {
  import opened Wrappers
  import opened SmartTypes
  import Seqs
  import Ids

  /** `prev.find(i => i.category === c)`: the first equipped garment of that category. */
  function FirstOfCategory(prev: seq<ClosetItem>, c: Category): (r: Option<ClosetItem>)
    ensures r.None? <==> forall i :: 0 <= i < |prev| ==> prev[i].category != c
    ensures r.Some? ==> r.value.category == c && r.value in prev
    ensures r.Some? ==> exists k :: 0 <= k < |prev| && prev[k] == r.value
                           && forall i :: 0 <= i < k ==> prev[i].category != c
  {
    if prev == [] then None
    else if prev[0].category == c then Some(prev[0])
    else
      var r := FirstOfCategory(prev[1..], c);
      assert r.Some? ==> exists k :: 1 <= k < |prev| && prev[k] == r.value
                           && forall i :: 0 <= i < k ==> prev[i].category != c by {
        if r.Some? {
          var k :| 0 <= k < |prev[1..]| && prev[1..][k] == r.value
                   && forall i :: 0 <= i < k ==> prev[1..][i].category != c;
          assert prev[k + 1] == r.value;
        }
      }
      r
  }

  function OtherId(id: string): ClosetItem -> bool { (i: ClosetItem) => i.id != id }

  function OtherCategory(c: Category): ClosetItem -> bool { (i: ClosetItem) => i.category != c }

  /** No two equipped garments share a category. */
  predicate OnePerCategory(s: seq<ClosetItem>) {
    forall i, j :: 0 <= i < j < |s| ==> s[i].category != s[j].category
  }

  /** Whether the garment is the one worn for its category, which is what a click on it takes off. */
  predicate IsWorn(prev: seq<ClosetItem>, item: ClosetItem) {
    var same := FirstOfCategory(prev, item.category);
    same.Some? && same.value.id == item.id
  }

  /**
    `toggleEquip`: clicking the garment worn for its category takes off everything with
    its id; clicking any other garment takes off whatever its category held and puts it
    on at the end.
  */
  function ToggleEquip(prev: seq<ClosetItem>, item: ClosetItem): (r: seq<ClosetItem>)
    ensures IsWorn(prev, item) ==> forall i :: 0 <= i < |r| ==> r[i].id != item.id && r[i] in prev
    ensures !IsWorn(prev, item) ==> |r| >= 1 && r[|r| - 1] == item
    ensures !IsWorn(prev, item) ==> forall i :: 0 <= i < |r| - 1 ==> r[i].category != item.category && r[i] in prev
  {
    if IsWorn(prev, item) then Seqs.Filter(prev, OtherId(item.id))
    else Seqs.Filter(prev, OtherCategory(item.category)) + [item]
  }

  /** A filter keeps at most one garment per category. */
  lemma {:induction false} FilterKeepsOnePerCategory(s: seq<ClosetItem>, p: ClosetItem -> bool)
    requires OnePerCategory(s)
    ensures OnePerCategory(Seqs.Filter(s, p))
  {
    if s != [] {
      FilterKeepsOnePerCategory(s[1..], p);
      var rest := Seqs.Filter(s[1..], p);
      forall i | 0 <= i < |rest| ensures rest[i].category != s[0].category {
        assert rest[i] in s[1..];
      }
    }
  }

  /**
    Toggling keeps at most one garment per category. This covers accessories too: the
    code makes no exception for them.
  */
  lemma ToggleKeepsOnePerCategory(prev: seq<ClosetItem>, item: ClosetItem)
    requires OnePerCategory(prev)
    ensures OnePerCategory(ToggleEquip(prev, item))
  {
    if IsWorn(prev, item) {
      FilterKeepsOnePerCategory(prev, OtherId(item.id));
    } else {
      FilterKeepsOnePerCategory(prev, OtherCategory(item.category));
    }
  }

  /** Either way, the garments of other categories stay on in their order, when ids do not cross categories. */
  lemma OtherCategoriesKept(prev: seq<ClosetItem>, item: ClosetItem)
    requires forall i :: 0 <= i < |prev| && prev[i].id == item.id ==> prev[i].category == item.category
    ensures Seqs.Filter(ToggleEquip(prev, item), OtherCategory(item.category))
         == Seqs.Filter(prev, OtherCategory(item.category))
  {
    var q := OtherCategory(item.category);
    if IsWorn(prev, item) {
      Seqs.FilterThenFilter(prev, OtherId(item.id), q);
    } else {
      var kept := Seqs.Filter(prev, q);
      Seqs.FilterConcat(kept, [item], q);
      Seqs.FilterIdempotent(prev, q);
      assert Seqs.Filter([item], q) == [];
    }
  }

  /** With nothing of its category on and its id unused, putting a garment on and taking it off restores the list. */
  lemma ToggleTwice(prev: seq<ClosetItem>, item: ClosetItem)
    requires forall i :: 0 <= i < |prev| ==> prev[i].category != item.category
    requires forall i :: 0 <= i < |prev| ==> prev[i].id != item.id
    ensures ToggleEquip(prev, item) == prev + [item]
    ensures ToggleEquip(ToggleEquip(prev, item), item) == prev
  {
    Seqs.FilterKeepsAll(prev, OtherCategory(item.category));
    var once := prev + [item];
    var found := FirstOfCategory(once, item.category);
    assert found == Some(item) by {
      assert once[|prev|] == item;
      assert found.Some?;
      var k :| 0 <= k < |once| && once[k] == found.value
               && forall i :: 0 <= i < k ==> once[i].category != item.category;
    }
    Seqs.FilterConcat(prev, [item], OtherId(item.id));
    Seqs.FilterKeepsAll(prev, OtherId(item.id));
    assert Seqs.Filter([item], OtherId(item.id)) == [];
  }

  /**
    `handleSave`: nothing when no garment is on; otherwise an outfit of exactly the
    equipped garments, named after the date as the locale prints it. The id and the
    creation time are two separate clock reads, `idTime` and `createdAt`.
  */
  function SaveLook(equipped: seq<ClosetItem>, idTime: nat, createdAt: nat, dateLabel: string): (r: Option<Outfit>)
    ensures r.None? <==> equipped == []
    ensures r.Some? ==> r.value.items == equipped && r.value.createdAt == createdAt
    ensures r.Some? ==> r.value.id == Ids.NatToString(idTime) && r.value.name == "Style " + dateLabel
    ensures r.Some? ==> r.value.videoUrl.None?
  {
    if |equipped| == 0 then None
    else Some(Outfit(Ids.NatToString(idTime), "Style " + dateLabel, equipped, None, createdAt))
  }
}
