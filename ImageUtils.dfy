/** Conversion of a generation response into history records, the text copied for
    a record's prompt, and the size estimate of a base64 payload. */
module ImageUtils {
  import opened ApiTypes

  const DataUrlPrefix: string := "data:image/png;base64,"

  /** The inline image reference a base64 PNG payload is shown through. */
  function DataUrl(payload: string): string {
    DataUrlPrefix + payload
  }

  /** The payload of an inline PNG reference, if `url` is one: a payload comes
      back exactly when `url` is the reference of some payload, and then `url` is
      the reference of the payload returned. */
  function PayloadOf(url: string): (p: Option<string>)
    ensures p.Some? ==> url == DataUrl(p.value)
    ensures p.Some? <==> exists q :: url == DataUrl(q)
  {
    if |url| >= |DataUrlPrefix| && url[..|DataUrlPrefix|] == DataUrlPrefix then
      assert url == DataUrl(url[|DataUrlPrefix|..]);
      Some(url[|DataUrlPrefix|..])
    else
      assert forall q :: url != DataUrl(q) by {
        forall q ensures url != DataUrl(q) {
          assert DataUrl(q)[..|DataUrlPrefix|] == DataUrlPrefix;
        }
      }
      None
  }

  /** A record's url gives back exactly the payload it was built from, so
      distinct payloads give distinct urls. */
  lemma PayloadOfDataUrl(payload: string, url: string)
    ensures PayloadOf(DataUrl(payload)) == Some(payload)
    ensures PayloadOf(url) == Some(payload) ==> url == DataUrl(payload)
  {
    var u := DataUrl(payload);
    assert u[..|DataUrlPrefix|] == DataUrlPrefix;
    assert u[|DataUrlPrefix|..] == payload;
    if PayloadOf(url) == Some(payload) {
      assert url == url[..|DataUrlPrefix|] + url[|DataUrlPrefix|..];
    }
  }

  /** `convertToGeneratedImage`: one record per payload of the response, in the
      response's order. `newId(i)` and `now(i)` are what `generateImageId()` and
      `Date.now()` return while record `i` is built. */
  function ConvertToGeneratedImage(response: GenerationResponse, prompt: string,
                                   negativePrompt: Option<string>,
                                   newId: nat -> string, now: nat -> int): (r: seq<GeneratedImage>)
    ensures response.images.None? ==> r == []
    ensures response.images.Some? ==> |r| == |response.images.value|
    ensures response.images.Some? ==> forall i :: 0 <= i < |r| ==>
              r[i].id == newId(i) && r[i].timestamp == now(i) &&
              r[i].url == DataUrl(response.images.value[i]) &&
              PayloadOf(r[i].url) == Some(response.images.value[i])
    ensures forall i :: 0 <= i < |r| ==>
              r[i].prompt == prompt && r[i].negativePrompt == negativePrompt &&
              r[i].parameters == Some(response.parameters) && r[i].info == Some(response.info)
  {
    match response.images
    case None => []
    case Some(payloads) =>
      if |payloads| == 0 then []
      else
        var r := seq(|payloads|, i requires 0 <= i < |payloads| =>
                   GeneratedImage(newId(i), DataUrl(payloads[i]), prompt, negativePrompt,
                                  now(i), Some(response.parameters), Some(response.info)));
        assert forall i :: 0 <= i < |r| ==> PayloadOf(r[i].url) == Some(payloads[i]) by {
          forall i | 0 <= i < |r| ensures PayloadOf(r[i].url) == Some(payloads[i]) {
            PayloadOfDataUrl(payloads[i], r[i].url);
          }
        }
        r
  }

  const NegativePromptLabel: string := "\n\nNegative prompt: "

  /** The text `copyPromptToClipboard` copies for a record. */
  function PromptText(image: GeneratedImage): string {
    if Truthy(image.negativePrompt)
    then image.prompt + NegativePromptLabel + image.negativePrompt.value
    else image.prompt
  }

  /** The copied text always starts with the prompt; it is longer than the prompt
      exactly when the record has a non-empty negative prompt, and then the rest is
      the label followed by that negative prompt. */
  lemma PromptTextShape(image: GeneratedImage)
    ensures |PromptText(image)| >= |image.prompt|
    ensures PromptText(image)[..|image.prompt|] == image.prompt
    ensures |PromptText(image)| > |image.prompt| <==> Truthy(image.negativePrompt)
    ensures Truthy(image.negativePrompt) ==>
              PromptText(image)[|image.prompt|..] == NegativePromptLabel + image.negativePrompt.value
  {
    var t := PromptText(image);
    if Truthy(image.negativePrompt) {
      assert t == image.prompt + (NegativePromptLabel + image.negativePrompt.value);
    }
  }

  /** `Math.round`: the nearest integer, halves rounded upwards. */
  function JsRound(x: real): int {
    (x + 0.5).Floor
  }

  /** `estimateImageSize`: `Math.round((length * 3 / 4) / 1024)` kilobytes, computed
      in integers. */
  function EstimateImageSize(base64Image: string): (kb: nat)
    ensures kb == JsRound((|base64Image| as real * 3.0 / 4.0) / 1024.0)
  {
    var n := |base64Image|;
    var kb := (3 * n + 2048) / 4096;
    RoundOfQuotient(3 * n, kb);
    assert (n as real * 3.0 / 4.0) / 1024.0 == (3 * n) as real / 4096.0;
    kb
  }

  /** Rounding `a / 4096` half-upwards gives `(a + 2048) div 4096`. */
  lemma RoundOfQuotient(a: nat, k: int)
    requires k == (a + 2048) / 4096
    ensures JsRound(a as real / 4096.0) == k
  {
    var x := a as real / 4096.0 + 0.5;
    assert 4096 * k <= a + 2048 < 4096 * k + 4096;
    assert k as real <= x < k as real + 1.0;
  }

  /** An empty payload is estimated at zero, and the estimate never decreases as
      the payload grows. */
  lemma EstimateMonotone(a: string, b: string)
    requires |a| <= |b|
    ensures EstimateImageSize("") == 0
    ensures EstimateImageSize(a) <= EstimateImageSize(b)
  {
  }

}
