/**
 * The two result normalisers of the Vertex AI service. The hosted models are
 * not modelled: what the text model or the image model returned (or the
 * exception it raised) is an input, as is whether the project identity is
 * configured. What remains is how each normaliser shapes a list of strings,
 * with its error placeholders.
 */
module VertexAi {
  import opened Wrappers
  import opened PyStr
  import opened ListParser
  import Base64

  /** What the text model call produced: an exception (its `str(e)`), or a
      response whose first candidate's first part has a text (`None` when the
      response has no candidate or the candidate no part). */
  datatype TextReply = GeminiRaised(message: string) | GeminiReplied(firstPartText: Option<string>)

  /** What the image model call produced: an exception, or the list of
      returned images, each with its bytes (`None` for an image without
      bytes). An absent list and an empty one are alike falsy. */
  datatype ImageReply = ImagenRaised(message: string) | ImagenReplied(images: seq<Option<seq<Base64.byte>>>)

  // ----- text placeholders -----

  function TextConfigError(n: int): string {
    "Error:" + " GCP_PROJECT_ID not configured. Cannot call Gemini for " + IntToDecimal(n) + " variations."
  }

  function TextParseError(n: int): string {
    "Error:" + " Could not parse " + IntToDecimal(n) + " ad texts from response."
  }

  function TextNoCandidate(n: int): string {
    "Sorry," + " I couldn't generate ad text for " + IntToDecimal(n) + " variations at this moment."
  }

  /** The opening words of the exception placeholder. */
  const TextExceptionMark := "Error generating ad text"

  function TextException(n: int, message: string): string {
    TextExceptionMark + " for " + IntToDecimal(n) + " variations: " + message
  }

  // ----- image placeholders and the data URI -----

  function ImageConfigError(n: int): string {
    "Error:" + " GCP_PROJECT_ID not configured. Cannot call Imagen for " + IntToDecimal(n) + " images."
  }

  const NoBytesPlaceholder := "Error:" + " Image generation failed for this item (no bytes)."
  const FewerPlaceholder := "Error:" + " Image not generated for this item (fewer returned than requested)."
  const NoImagesPlaceholder := "Error:" + " Image generation failed or no images returned."

  function ImageException(message: string): string {
    "Error generating ad" + " image" + ": An unexpected error occurred." + " Details: " + message
  }

  const DataUriPrefix := "data:image/png;base64,"

  /** `f"data:image/png;base64,{base64_image}"`. */
  function DataUri(bytes: seq<Base64.byte>): string {
    DataUriPrefix + Base64.Encode(bytes)
  }

  /** `generate_ad_text_with_gemini(prompt, num_variations)` once the model
      call is abstracted into `reply`. */
  function GenerateAdTextWithGemini(projectConfigured: bool, reply: TextReply, n: int): (r: seq<string>)
    // Missing project identity: exactly one "Error:" string, whatever n is.
    ensures !projectConfigured ==> |r| == 1 && StartsWith(r[0], "Error:")
    // An exception: one placeholder carrying its message per requested item.
    ensures projectConfigured && reply.GeminiRaised? ==>
              r == Repeat(TextException(n, reply.message), n)
    // No candidate text: one "Sorry," placeholder per requested item.
    ensures projectConfigured && reply == GeminiReplied(None) ==>
              |r| == (if n > 0 then n else 0) && forall i :: 0 <= i < |r| ==> StartsWith(r[i], "Sorry,")
    // One item: the whole stripped text, unparsed.
    ensures projectConfigured && reply.GeminiReplied? && reply.firstPartText.Some? && n <= 1 ==>
              r == [Strip(reply.firstPartText.value)]
    // Several items: the parse when the text is not blank (possibly shorter
    // than n, never padded), n parse-error placeholders when it is blank.
    ensures projectConfigured && reply.GeminiReplied? && reply.firstPartText.Some? && n > 1 ==>
              var raw := reply.firstPartText.value;
              1 <= |r| <= n
              && (|Strip(raw)| > 0 ==> r == ParseListResponse(raw, n))
              && (|Strip(raw)| == 0 ==> r == Repeat(TextParseError(n), n))
  {
    if !projectConfigured then
      StartsWithPlus("Error:", " GCP_PROJECT_ID not configured. Cannot call Gemini for " + IntToDecimal(n) + " variations.");
      [TextConfigError(n)]
    else
      match reply
      case GeminiRaised(e) => Repeat(TextException(n, e), n)
      case GeminiReplied(None) =>
        StartsWithPlus("Sorry,", " I couldn't generate ad text for " + IntToDecimal(n) + " variations at this moment.");
        Repeat(TextNoCandidate(n), n)
      case GeminiReplied(Some(raw)) =>
        if n > 1 then
          var parsed := ParseListResponse(raw, n);
          ParseEmptyIffBlank(raw, n);
          if |parsed| == n then parsed
          else if |parsed| > 0 then parsed
          else Repeat(TextParseError(n), n)
        else [Strip(raw)]
  }

  /** One returned image: its data URI when it has bytes, else the no-bytes
      placeholder. */
  function ImageSlot(image: Option<seq<Base64.byte>>): string {
    if image.Some? && |image.value| > 0 then DataUri(image.value) else NoBytesPlaceholder
  }

  /** `min(number_of_images, len(images))` as a `range` bound (0 when negative). */
  function Filled(n: int, returned: nat): nat {
    if n <= 0 then 0 else if n < returned then n else returned
  }

  /** What `generate_ad_image_with_imagen` returns, as a value. */
  function ImageDataList(projectConfigured: bool, reply: ImageReply, n: int): (r: seq<string>)
  {
    if !projectConfigured then [ImageConfigError(n)]
    else
      match reply
      case ImagenRaised(e) => Repeat(ImageException(e), n)
      case ImagenReplied(images) =>
        if |images| == 0 then Repeat(NoImagesPlaceholder, n)
        else
          var m := Filled(n, |images|);
          seq(m, i requires 0 <= i < m => ImageSlot(images[i])) + Repeat(FewerPlaceholder, n - m)
  }

  /** `generate_ad_image_with_imagen(prompt, aspect_ratio, number_of_images)`
      once the model call is abstracted into `reply`: one loop encodes the
      returned images, a second pads with placeholders. */
  method GenerateAdImageWithImagen(projectConfigured: bool, reply: ImageReply, numberOfImages: int)
    returns (imageDataList: seq<string>)
    ensures imageDataList == ImageDataList(projectConfigured, reply, numberOfImages)
  {
    if !projectConfigured {
      return [ImageConfigError(numberOfImages)];
    }
    match reply
    case ImagenRaised(e) =>
      imageDataList := Repeat(ImageException(e), numberOfImages);
    case ImagenReplied(images) =>
      if |images| == 0 {
        return Repeat(NoImagesPlaceholder, numberOfImages);
      }
      imageDataList := [];
      var m := Filled(numberOfImages, |images|);
      for i := 0 to m
        invariant imageDataList == seq(i, k requires 0 <= k < i => ImageSlot(images[k]))
      {
        var image := images[i];
        if image.Some? && |image.value| > 0 {
          imageDataList := imageDataList + [DataUriPrefix + Base64.Encode(image.value)];
        } else {
          imageDataList := imageDataList + [NoBytesPlaceholder];
        }
      }
      ghost var filled := imageDataList;
      if |imageDataList| < numberOfImages {
        var missing := numberOfImages - |imageDataList|;
        for k := 0 to missing
          invariant imageDataList == filled + Repeat(FewerPlaceholder, k)
        {
          imageDataList := imageDataList + [FewerPlaceholder];
        }
      }
  }

  /** Image list shaping: with at least one returned image the list has
      exactly n entries, the encoded returned images first, then the
      fewer-returned placeholder. */
  lemma ImageListShape(images: seq<Option<seq<Base64.byte>>>, n: nat)
    requires |images| > 0
    ensures var r := ImageDataList(true, ImagenReplied(images), n);
            |r| == n
            && (forall i :: 0 <= i < n && i < |images| ==> r[i] == ImageSlot(images[i]))
            && (forall i :: |images| <= i < n ==> r[i] == FewerPlaceholder)
  {
  }

  /** Failure outputs of the image normaliser: one "Error:" string without a
      project identity, n placeholders for an exception or no images. */
  lemma ImageFailureShapes(reply: ImageReply, n: int)
    ensures var r := ImageDataList(false, reply, n);
            |r| == 1 && StartsWith(r[0], "Error:")
    ensures reply.ImagenRaised? ==>
              ImageDataList(true, reply, n) == Repeat(ImageException(reply.message), n)
    ensures reply == ImagenReplied([]) ==>
              ImageDataList(true, reply, n) == Repeat(NoImagesPlaceholder, n)
  {
    StartsWithPlus("Error:", " GCP_PROJECT_ID not configured. Cannot call Imagen for " + IntToDecimal(n) + " images.");
  }
  /** A genuine data URI starts with the data URI prefix and never contains
      "Error:": the prefix has no 'E' and the base64 alphabet has no ':'. */
  lemma DataUriNeverError(bytes: seq<Base64.byte>)
    ensures StartsWith(DataUri(bytes), DataUriPrefix)
    ensures !Contains(DataUri(bytes), "Error:")
  {
    StartsWithPlus(DataUriPrefix, Base64.Encode(bytes));
    if Contains(DataUri(bytes), "Error:") {
      ContainsSkip(DataUriPrefix, Base64.Encode(bytes), "Error:");
      ContainsChars(Base64.Encode(bytes), "Error:", 5);
      assert false;
    }
  }

  /** An "Error..." placeholder never starts like a data URI. */
  lemma ErrorTextNotUri(head: string, rest: string)
    requires |head| > 0 && head[0] == 'E'
    ensures !StartsWith(head + rest, DataUriPrefix)
  {
    NotStartsWithFirst(head + rest, DataUriPrefix);
  }

  /** Only an image the model returned with bytes yields an entry that
      starts like a data URI, and that entry is the image's data URI. */
  lemma ImageEntryGenuine(projectConfigured: bool, reply: ImageReply, n: int, i: nat)
    requires i < |ImageDataList(projectConfigured, reply, n)|
    requires StartsWith(ImageDataList(projectConfigured, reply, n)[i], DataUriPrefix)
    ensures projectConfigured && reply.ImagenReplied?
    ensures i < |reply.images| && reply.images[i].Some? && |reply.images[i].value| > 0
    ensures ImageDataList(projectConfigured, reply, n)[i] == DataUri(reply.images[i].value)
  {
    var r := ImageDataList(projectConfigured, reply, n);
    if !projectConfigured {
      ErrorTextNotUri("Error:", " GCP_PROJECT_ID not configured. Cannot call Imagen for " + IntToDecimal(n) + " images.");
      assert false;
    }
    match reply
    case ImagenRaised(e) =>
      ErrorTextNotUri("Error generating ad" + " image" + ": An unexpected error occurred." + " Details: ", e);
      assert false;
    case ImagenReplied(images) =>
      if |images| == 0 {
        ErrorTextNotUri("Error:", " Image generation failed or no images returned.");
        assert false;
      }
      var m := Filled(n, |images|);
      if i >= m {
        ErrorTextNotUri("Error:", " Image not generated for this item (fewer returned than requested).");
        assert false;
      }
      if !(images[i].Some? && |images[i].value| > 0) {
        ErrorTextNotUri("Error:", " Image generation failed for this item (no bytes).");
        assert false;
      }
  }
}
