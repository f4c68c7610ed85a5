/**
  The AI service helpers (services/geminiService.ts) around the model calls: the retry
  combinator, the scan for the first inline image in a response, background removal with
  its fallbacks, the outfit-preview request layout and failure, and the resize guard.
  Each model call is represented by its outcome: the response's parts, or the error it
  threw.
*/
module Gemini {
  import opened Wrappers
  import Strings
  import opened Types

  /** `withRetry`'s default number of retries. */
  const DefaultRetries: nat := 2

  /** What `withRetry` returns or throws, with the number of times it called `fn`. */
  datatype Retried<T> = Retried(outcome: Attempt<T>, calls: nat)

  /**
    `withRetry(fn, retries)`, where `attempts[i]` is the outcome of the i-th call of `fn`:
    call, and on an error try again while retries remain.
  */
  function WithRetry<T>(attempts: seq<Attempt<T>>, retries: nat): (r: Retried<T>)
    requires |attempts| > retries
    ensures 1 <= r.calls <= retries + 1
    ensures forall i :: 0 <= i < r.calls - 1 ==> attempts[i].Fail?
    ensures r.outcome.Ok? ==> r.outcome == attempts[r.calls - 1]
    ensures r.outcome.Fail? ==> r.calls == retries + 1 && r.outcome == attempts[retries]
  {
    if attempts[0].Ok? || retries == 0 then Retried(attempts[0], 1)
    else
      var rest := WithRetry(attempts[1..], retries - 1);
      Retried(rest.outcome, rest.calls + 1)
  }

  /** The first success among the first `n` calls wins, and no call follows it. */
  lemma {:induction false} RetryFirstSuccess<T>(attempts: seq<Attempt<T>>, retries: nat, k: nat)
    requires |attempts| > retries && k <= retries
    requires attempts[k].Ok? && forall i :: 0 <= i < k ==> attempts[i].Fail?
    ensures WithRetry(attempts, retries) == Retried(attempts[k], k + 1)
  {
    if k > 0 {
      RetryFirstSuccess(attempts[1..], retries - 1, k - 1);
    }
  }

  /** When every allowed call fails, all `retries + 1` calls are made and the last error is thrown. */
  lemma RetryAllFail<T>(attempts: seq<Attempt<T>>, retries: nat)
    requires |attempts| > retries
    requires forall i :: 0 <= i <= retries ==> attempts[i].Fail?
    ensures WithRetry(attempts, retries) == Retried(attempts[retries], retries + 1)
  {
  }

  /** A part of a model response: inline image data or text. */
  datatype ResponsePart = InlineData(data: string) | TextPart(text: string)

  const PngPrefix: string := "data:image/png;base64,"

  /** The index of the first part with inline data, if any. */
  function FirstInline(parts: seq<ResponsePart>): (r: Option<nat>)
    ensures r.Some? ==> r.value < |parts| && parts[r.value].InlineData?
    ensures r.Some? ==> forall j :: 0 <= j < r.value ==> !parts[j].InlineData?
    ensures r.None? <==> forall j :: 0 <= j < |parts| ==> !parts[j].InlineData?
  {
    if parts == [] then None
    else if parts[0].InlineData? then Some(0)
    else match FirstInline(parts[1..]) {
      case None => None
      case Some(k) => Some(k + 1)
    }
  }

  /** The image a response carries, as a PNG data URL of its first inline part. */
  function ImageOf(parts: seq<ResponsePart>): Option<string> {
    match FirstInline(parts)
    case None => None
    case Some(k) => Some(PngPrefix + parts[k].data)
  }

  /** The `for (const part of parts)` loop with its early return. */
  method ScanForImage(parts: seq<ResponsePart>) returns (url: Option<string>)
    ensures url == ImageOf(parts)
    ensures url.Some? <==> exists j :: 0 <= j < |parts| && parts[j].InlineData?
  {
    for i := 0 to |parts|
      invariant forall j :: 0 <= j < i ==> !parts[j].InlineData?
    {
      if parts[i].InlineData? {
        return Some(PngPrefix + parts[i].data);
      }
    }
    return None;
  }

  /** One call inside `removeBackground`: a response without an image yields the original. */
  function RemovalCall(original: string, response: Attempt<seq<ResponsePart>>): Attempt<string> {
    match response
    case Fail(e) => Fail(e)
    case Ok(parts) => Ok(ImageOf(parts).GetOr(original))
  }

  /**
    `removeBackground`, where `responses[i]` is the outcome of the i-th model call: the first
    answered call decides, and if all three calls throw the original comes back.
  */
  function RemoveBackground(original: string, responses: seq<Attempt<seq<ResponsePart>>>): (r: string)
    requires |responses| > DefaultRetries
    ensures (forall i :: 0 <= i <= DefaultRetries ==> responses[i].Fail?) ==> r == original
    ensures forall k :: 0 <= k <= DefaultRetries && responses[k].Ok? && (forall i :: 0 <= i < k ==> responses[i].Fail?) ==>
      r == ImageOf(responses[k].value).GetOr(original)
  {
    var outcomes := seq(|responses|, i requires 0 <= i < |responses| => RemovalCall(original, responses[i]));
    assert forall i :: 0 <= i < |responses| ==> outcomes[i] == RemovalCall(original, responses[i]);
    match WithRetry(outcomes, DefaultRetries).outcome
    case Ok(url) => url
    case Fail(_) => original
  }

  /** Background removal never fails: its result is an extracted PNG or the original input. */
  lemma RemoveBackgroundTotal(original: string, responses: seq<Attempt<seq<ResponsePart>>>)
    requires |responses| > DefaultRetries
    ensures var r := RemoveBackground(original, responses);
      r == original || exists k, parts :: 0 <= k <= DefaultRetries && responses[k] == Ok(parts) && Some(r) == ImageOf(parts)
  {
    var outcomes := seq(|responses|, i requires 0 <= i < |responses| => RemovalCall(original, responses[i]));
    var rr := WithRetry(outcomes, DefaultRetries);
    if rr.outcome.Ok? {
      var k := rr.calls - 1;
      assert outcomes[k] == RemovalCall(original, responses[k]);
      if responses[k].Ok? && ImageOf(responses[k].value).Some? {
        assert Some(RemoveBackground(original, responses)) == ImageOf(responses[k].value);
      }
    }
  }

  /** A part of a preview request: an image's base64 payload (`undefined` when it has no comma) or the prompt. */
  datatype RequestPart = ImagePart(data: Option<string>) | PromptPart(text: string)

  /** `url.split(',')[1]`. */
  function Payload(url: string): Option<string> {
    var pieces := Strings.Split(url, ',');
    if |pieces| >= 2 then Some(pieces[1]) else None
  }

  const PersonPrompt: string := "Photorealistic fashion photo of this person wearing these clothes."
  const ModelPrompt: string := "Realistic fashion catalog photo of a model wearing these clothes."

  /**
    The parts `generateOutfitPreview` sends: the user's photo first when there is one, then
    one image per item in order, then the prompt chosen by whether there is a photo. The
    arguments are the already resized images.
  */
  function PreviewRequest(itemImages: seq<string>, userPhoto: Option<string>): (r: seq<RequestPart>)
    ensures |r| == |itemImages| + (if Truthy(userPhoto) then 2 else 1)
    ensures Truthy(userPhoto) ==> r[0] == ImagePart(Payload(userPhoto.value))
    ensures var off := if Truthy(userPhoto) then 1 else 0;
      forall k :: 0 <= k < |itemImages| ==> r[off + k] == ImagePart(Payload(itemImages[k]))
    ensures r[|r| - 1] == PromptPart(if Truthy(userPhoto) then PersonPrompt else ModelPrompt)
  {
    var items := seq(|itemImages|, k requires 0 <= k < |itemImages| => ImagePart(Payload(itemImages[k])));
    if Truthy(userPhoto) then [ImagePart(Payload(userPhoto.value))] + items + [PromptPart(PersonPrompt)]
    else items + [PromptPart(ModelPrompt)]
  }

  /** One call inside `generateOutfitPreview`: a response without an image is an error too. */
  function PreviewCall(response: Attempt<seq<ResponsePart>>): (r: Attempt<string>)
    ensures r.Ok? <==> response.Ok? && ImageOf(response.value).Some?
  {
    match response
    case Fail(e) => Fail(e)
    case Ok(parts) => match ImageOf(parts) { case Some(url) => Ok(url) case None => Fail("Failed") }
  }

  /** `generateOutfitPreview`'s result: the first image among the three allowed calls, or the last error. */
  function GenerateOutfitPreview(responses: seq<Attempt<seq<ResponsePart>>>): (r: Attempt<string>)
    requires |responses| > DefaultRetries
    ensures r.Ok? ==> exists k :: 0 <= k <= DefaultRetries && responses[k].Ok? && ImageOf(responses[k].value) == Some(r.value)
    ensures r.Fail? <==> forall k :: 0 <= k <= DefaultRetries ==> !(responses[k].Ok? && ImageOf(responses[k].value).Some?)
    ensures forall k ::
      (0 <= k <= DefaultRetries && PreviewCall(responses[k]).Ok? && forall i :: 0 <= i < k ==> PreviewCall(responses[i]).Fail?)
      ==> r == PreviewCall(responses[k])
    ensures r.Fail? ==> r == PreviewCall(responses[DefaultRetries])
  {
    var outcomes := seq(|responses|, i requires 0 <= i < |responses| => PreviewCall(responses[i]));
    assert forall k :: 0 <= k < |responses| ==> outcomes[k] == PreviewCall(responses[k]);
    var rr := WithRetry(outcomes, DefaultRetries);
    assert forall k :: 0 <= k <= DefaultRetries && outcomes[k].Ok? && (forall i :: 0 <= i < k ==> outcomes[i].Fail?) ==>
      rr.outcome == outcomes[k] by {
      forall k | 0 <= k <= DefaultRetries && outcomes[k].Ok? && (forall i :: 0 <= i < k ==> outcomes[i].Fail?)
        ensures rr.outcome == outcomes[k]
      {
        RetryFirstSuccess(outcomes, DefaultRetries, k);
      }
    }
    rr.outcome
  }

  /** A successful preview is a PNG data URL. */
  lemma PreviewIsPng(responses: seq<Attempt<seq<ResponsePart>>>)
    requires |responses| > DefaultRetries && GenerateOutfitPreview(responses).Ok?
    ensures Strings.StartsWith(GenerateOutfitPreview(responses).value, PngPrefix)
  {
    var k :| 0 <= k <= DefaultRetries && responses[k].Ok? && ImageOf(responses[k].value) == Some(GenerateOutfitPreview(responses).value);
    var parts := responses[k].value;
    var j := FirstInline(parts).value;
    assert (PngPrefix + parts[j].data)[..|PngPrefix|] == PngPrefix;
  }

  /**
    `resizeImage`'s guard: an empty input or one that is not a data URL is returned as it
    is; otherwise the result is what the canvas produced (`drawn`).
  */
  function ResizeImage(s: string, drawn: string): (r: string)
    ensures s == "" || !Strings.StartsWith(s, "data:") ==> r == s
    ensures s != "" && Strings.StartsWith(s, "data:") ==> r == drawn
  {
    if s == "" || !Strings.StartsWith(s, "data:") then s else drawn
  }

  /** Remote image URLs are never redrawn. */
  lemma RemoteUrlsPassThrough(s: string, drawn: string)
    requires Strings.StartsWith(s, "https:")
    ensures ResizeImage(s, drawn) == s
  {
    assert s[4] == 's';
  }
}
