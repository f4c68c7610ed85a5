/**
  The second prototype's app shell (smart-my-closet-ai/App.tsx): the seeded closet
  and the four handlers that the sections call to change the closet and the saved
  outfits. Each handler is a functional update of the previous list.
*/
module SmartApp {
  import opened Wrappers
  import opened SmartTypes
  import Seqs

  /** The three garments the closet starts with. */
  const InitialCloset: seq<ClosetItem> := [
    ClosetItem("1", Tops, ["Summer", "Beach"], "white", "https://picsum.photos/seed/tshirt/400/400", None),
    ClosetItem("2", Bottoms, ["Summer", "Casual"], "black", "https://picsum.photos/seed/shorts/400/400", None),
    ClosetItem("3", Dresses, ["Beach", "Vacation"], "blue", "https://picsum.photos/seed/dress/400/400", None)
  ]

  /** The figure starts with every multiplier at 1. */
  const InitialMetrics: BodyMetrics := BodyMetrics(1.0, 1.0, 1.0)

  /** No two garments share an id. */
  predicate UniqueIds(closet: seq<ClosetItem>) {
    forall i, j :: 0 <= i < j < |closet| ==> closet[i].id != closet[j].id
  }

  /** The seeded closet has three garments with distinct ids and distinct categories. */
  lemma InitialClosetDistinct()
    ensures |InitialCloset| == 3
    ensures UniqueIds(InitialCloset)
    ensures forall i, j :: 0 <= i < j < |InitialCloset| ==> InitialCloset[i].category != InitialCloset[j].category
  {
  }

  function IdOf(item: ClosetItem): string { item.id }

  /** `handleAddItem`: the new garment goes in front of the others. */
  function AddItem(closet: seq<ClosetItem>, item: ClosetItem): (r: seq<ClosetItem>)
    ensures |r| == |closet| + 1
    ensures r[0] == item && r[1..] == closet
  {
    [item] + closet
  }

  /** `handleUpdateItem`: every garment with the updated garment's id is replaced by it. */
  function UpdateItem(closet: seq<ClosetItem>, updated: ClosetItem): (r: seq<ClosetItem>)
    ensures |r| == |closet|
    ensures forall i :: 0 <= i < |closet| ==> r[i] == if closet[i].id == updated.id then updated else closet[i]
  {
    Seqs.ReplaceById(closet, IdOf, updated)
  }

  /** `handleDeleteItem`: the garments whose id differs, in their order. */
  function DeleteItem(closet: seq<ClosetItem>, id: string): (r: seq<ClosetItem>)
    ensures forall i :: 0 <= i < |r| ==> r[i].id != id && r[i] in closet
    ensures forall i :: 0 <= i < |closet| && closet[i].id != id ==> closet[i] in r
  {
    Seqs.RemoveById(closet, IdOf, id)
  }

  /** `handleSaveOutfit`: the new outfit goes in front of the saved ones. */
  function SaveOutfit(outfits: seq<Outfit>, outfit: Outfit): (r: seq<Outfit>)
    ensures |r| == |outfits| + 1
    ensures r[0] == outfit && r[1..] == outfits
  {
    [outfit] + outfits
  }

  /** Updating with an id the closet does not hold leaves the closet as it was. */
  lemma UpdateUnknownId(closet: seq<ClosetItem>, updated: ClosetItem)
    requires forall i :: 0 <= i < |closet| ==> closet[i].id != updated.id
    ensures UpdateItem(closet, updated) == closet
  {
    Seqs.ReplaceByIdAbsent(closet, IdOf, updated);
  }

  /** An update keeps every position's id, so it keeps ids unique, and updating twice is updating once. */
  lemma UpdateKeepsIds(closet: seq<ClosetItem>, updated: ClosetItem)
    ensures forall i :: 0 <= i < |closet| ==> UpdateItem(closet, updated)[i].id == closet[i].id
    ensures UniqueIds(closet) ==> UniqueIds(UpdateItem(closet, updated))
    ensures UpdateItem(UpdateItem(closet, updated), updated) == UpdateItem(closet, updated)
  {
  }

  /** Deleting distributes over concatenation, so the survivors keep their relative order. */
  lemma DeleteKeepsOrder(a: seq<ClosetItem>, b: seq<ClosetItem>, id: string)
    ensures DeleteItem(a + b, id) == DeleteItem(a, id) + DeleteItem(b, id)
  {
    Seqs.RemoveByIdConcat(a, b, IdOf, id);
  }

  /** Deleting a garment just added under a fresh id gives back the closet before the add. */
  lemma AddThenDelete(closet: seq<ClosetItem>, item: ClosetItem)
    requires forall i :: 0 <= i < |closet| ==> closet[i].id != item.id
    ensures DeleteItem(AddItem(closet, item), item.id) == closet
  {
    Seqs.RemoveByIdConcat([item], closet, IdOf, item.id);
    Seqs.RemoveByIdAbsent(closet, IdOf, item.id);
    assert Seqs.RemoveById([item], IdOf, item.id) == [];
  }

  /** Adding a garment under a fresh id keeps ids unique. */
  lemma AddKeepsUniqueIds(closet: seq<ClosetItem>, item: ClosetItem)
    requires UniqueIds(closet)
    requires forall i :: 0 <= i < |closet| ==> closet[i].id != item.id
    ensures UniqueIds(AddItem(closet, item))
  {
    var r := AddItem(closet, item);
    forall i, j | 0 <= i < j < |r| ensures r[i].id != r[j].id {
      assert r[j] == closet[j - 1];
      if i > 0 {
        assert r[i] == closet[i - 1];
      }
    }
  }
}
