/**
  The recommendation feed (components/Discover.tsx): resolving a recommendation's item ids
  against the closet, the idempotent save, the fetch guard and append, and the per-card
  preview result. The recommender's and the preview generator's answers are inputs.
*/
module Discover {
  import opened Wrappers
  import opened Types
  import Ids
  import Seqs

  /** The first closet item with the given id. */
  function FindItem(items: seq<ClosetItem>, id: string): (r: Option<ClosetItem>)
    ensures r.Some? ==> r.value in items && r.value.id == id
    ensures r.None? <==> forall j :: 0 <= j < |items| ==> items[j].id != id
    ensures r.Some? ==> exists j :: 0 <= j < |items| && items[j] == r.value && (forall i :: 0 <= i < j ==> items[i].id != id)
  {
    if items == [] then None
    else if items[0].id == id then Some(items[0])
    else
      assert forall j :: 0 < j < |items| ==> items[j] == items[1..][j - 1];
      FindItem(items[1..], id)
  }

  /** `ids.map(id => items.find(i => i.id === id)).filter(Boolean)`: ids missing from the closet are dropped. */
  function ResolveItems(ids: seq<string>, items: seq<ClosetItem>): (r: seq<ClosetItem>)
    ensures |r| <= |ids|
    ensures forall k :: 0 <= k < |r| ==> r[k] in items && r[k].id in ids
  {
    if ids == [] then []
    else match FindItem(items, ids[0]) {
      case None => ResolveItems(ids[1..], items)
      case Some(it) => [it] + ResolveItems(ids[1..], items)
    }
  }

  /** Resolution keeps the order of the ids: it distributes over concatenation. */
  lemma {:induction false} ResolveConcat(a: seq<string>, b: seq<string>, items: seq<ClosetItem>)
    ensures ResolveItems(a + b, items) == ResolveItems(a, items) + ResolveItems(b, items)
  {
    if a == [] {
      assert a + b == b;
    } else {
      assert (a + b)[0] == a[0] && (a + b)[1..] == a[1..] + b;
      ResolveConcat(a[1..], b, items);
    }
  }

  /** When every id is in the closet, the k-th resolved item is the first one with the k-th id. */
  lemma {:induction false} ResolveAllPresent(ids: seq<string>, items: seq<ClosetItem>)
    requires forall k :: 0 <= k < |ids| ==> FindItem(items, ids[k]).Some?
    ensures |ResolveItems(ids, items)| == |ids|
    ensures forall k :: 0 <= k < |ids| ==> ResolveItems(ids, items)[k] == FindItem(items, ids[k]).value
  {
    if ids != [] {
      var rest := ids[1..];
      assert forall k :: 0 <= k < |rest| ==> rest[k] == ids[k + 1];
      ResolveAllPresent(rest, items);
      var first := FindItem(items, ids[0]);
      assert first.Some?;
      var r := ResolveItems(ids, items);
      assert r == [first.value] + ResolveItems(rest, items);
      forall k | 0 <= k < |ids|
        ensures r[k] == FindItem(items, ids[k]).value
      {
        if k > 0 {
          assert rest[k - 1] == ids[k];
        }
      }
    }
  }

  /** Ids none of which is in the closet resolve to nothing. */
  lemma {:induction false} ResolveNonePresent(ids: seq<string>, items: seq<ClosetItem>)
    requires forall k :: 0 <= k < |ids| ==> FindItem(items, ids[k]).None?
    ensures ResolveItems(ids, items) == []
  {
    if ids != [] {
      assert forall k :: 0 <= k < |ids[1..]| ==> ids[1..][k] == ids[k + 1];
      ResolveNonePresent(ids[1..], items);
    }
  }

  /**
    `handleSave`: a recommendation already saved is ignored; otherwise it becomes a finished
    outfit and its id joins the saved set.
  */
  function SaveRecommendation(savedIds: set<string>, rec: AIRecommendation, items: seq<ClosetItem>, now: nat)
    : (r: (set<string>, Option<Outfit>))
    ensures rec.id in savedIds ==> r == (savedIds, None)
    ensures rec.id !in savedIds ==>
      && r.0 == savedIds + {rec.id}
      && r.1.Some?
      && var o := r.1.value;
      && o.id == "outfit-rec-" + Ids.NatToString(now) && o.createdAt == now
      && o.name == rec.name && o.scenario == rec.scenario && o.score == rec.score && o.review == rec.review
      && o.previewUrl == rec.previewUrl && o.previewStatus == Some(Done) && o.localPreviewUrl.None?
      && o.items == ResolveItems(rec.itemIds, items)
  {
    if rec.id in savedIds then (savedIds, None)
    else
      (savedIds + {rec.id},
       Some(Outfit("outfit-rec-" + Ids.NatToString(now), rec.name, rec.scenario, ResolveItems(rec.itemIds, items),
                   rec.score, rec.review, now, rec.previewUrl, None, Some(Done))))
  }

  /** Saving the same recommendation twice saves one outfit: the second save does nothing. */
  lemma SaveIdempotent(savedIds: set<string>, rec: AIRecommendation, items: seq<ClosetItem>, now: nat, later: nat)
    ensures var first := SaveRecommendation(savedIds, rec, items, now);
            SaveRecommendation(first.0, rec, items, later) == (first.0, None)
  {
  }

  /** What the recommender proposes for one card, before an id is attached. */
  datatype Suggestion = Suggestion(name: string, review: string, score: real, scenario: string, itemIds: seq<string>)

  /** `rec-${Date.now()}-${idx}`. */
  function RecId(now: nat, idx: nat): string {
    Ids.Tagged("rec-" + Ids.NatToString(now) + "-", idx)
  }

  /** The cards of one fetch: each suggestion with its id, waiting for a preview. */
  function Formatted(suggested: seq<Suggestion>, now: nat): (r: seq<AIRecommendation>)
    ensures |r| == |suggested|
    ensures forall k :: 0 <= k < |r| ==>
      && r[k].id == RecId(now, k) && r[k].isGenerating == Some(true) && r[k].previewUrl.None?
      && r[k].name == suggested[k].name && r[k].review == suggested[k].review && r[k].score == suggested[k].score
      && r[k].scenario == suggested[k].scenario && r[k].itemIds == suggested[k].itemIds
  {
    seq(|suggested|, k requires 0 <= k < |suggested| =>
      var s := suggested[k];
      AIRecommendation(RecId(now, k), s.name, s.review, s.score, s.scenario, s.itemIds, None, Some(true)))
  }

  /** The cards of one fetch have distinct ids. */
  lemma FormattedIdsDistinct(suggested: seq<Suggestion>, now: nat, i: nat, j: nat)
    requires i < j < |suggested|
    ensures Formatted(suggested, now)[i].id != Formatted(suggested, now)[j].id
  {
    if RecId(now, i) == RecId(now, j) {
      Ids.TaggedInjective("rec-" + Ids.NatToString(now) + "-", i, j);
    }
  }

  /**
    `fetchNewRecommendations` with the recommender's answer (`None` when it threw): nothing
    with fewer than two closet items; otherwise the new cards go after the existing ones.
  */
  function FetchRecommendations(recs: seq<AIRecommendation>, items: seq<ClosetItem>,
                                suggested: Option<seq<Suggestion>>, now: nat): (r: seq<AIRecommendation>)
    ensures |items| < 2 || suggested.None? ==> r == recs
    ensures |items| >= 2 && suggested.Some? ==>
      && |r| == |recs| + |suggested.value| && r[..|recs|] == recs
      && r[|recs|..] == Formatted(suggested.value, now)
      && forall k :: |recs| <= k < |r| ==> r[k].isGenerating == Some(true) && r[k].id == RecId(now, k - |recs|)
  {
    if |items| < 2 then recs
    else match suggested
      case None => recs
      case Some(s) =>
        var f := Formatted(s, now);
        assert forall k :: |recs| <= k < |recs| + |f| ==> (recs + f)[k] == f[k - |recs|];
        assert (recs + f)[|recs|..] == f;
        recs + f
  }

  /** One card once its preview call has ended: the image on success, and no longer generating either way. */
  function WithPreview(rec: AIRecommendation, url: Option<string>): (r: AIRecommendation)
    ensures r.isGenerating == Some(false)
    ensures r.previewUrl == if url.Some? then url else rec.previewUrl
    ensures r.(isGenerating := rec.isGenerating, previewUrl := rec.previewUrl) == rec
  {
    match url
    case Some(u) => rec.(previewUrl := Some(u), isGenerating := Some(false))
    case None => rec.(isGenerating := Some(false))
  }

  /** The per-card preview result (`None` when the call threw), applied to the card with that id. */
  function PreviewResult(recs: seq<AIRecommendation>, recId: string, url: Option<string>): (r: seq<AIRecommendation>)
    ensures |r| == |recs|
    ensures forall k :: 0 <= k < |recs| ==> r[k] == if recs[k].id == recId then WithPreview(recs[k], url) else recs[k]
  {
    Seqs.UpdateWhere(recs, (x: AIRecommendation) => x.id == recId, (x: AIRecommendation) => WithPreview(x, url))
  }

  /** Delivering the same result twice is the same as delivering it once. */
  lemma PreviewResultIdempotent(recs: seq<AIRecommendation>, recId: string, url: Option<string>)
    ensures PreviewResult(PreviewResult(recs, recId, url), recId, url) == PreviewResult(recs, recId, url)
  {
    var once := PreviewResult(recs, recId, url);
    var twice := PreviewResult(once, recId, url);
    forall k | 0 <= k < |recs| ensures twice[k] == once[k] {
      if recs[k].id == recId {
        assert once[k].id == recId;
      }
    }
  }

  /** A result for a card that is not in the feed changes nothing. */
  lemma PreviewResultUnknown(recs: seq<AIRecommendation>, recId: string, url: Option<string>)
    requires forall k :: 0 <= k < |recs| ==> recs[k].id != recId
    ensures PreviewResult(recs, recId, url) == recs
  {
  }
}
