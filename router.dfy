/**
 * The `POST /generate_ad_content` handler. The two model calls are the
 * service's function-valued inputs; the prompt builders and the two result
 * normalisers are the modelled ones. The handler picks the variation count,
 * checks its range, screens the text list and the image list for
 * placeholders, pairs them by index, and maps exceptions to HTTP replies.
 *
 * `Handle` is the handler as evidently intended and is what the rest of the
 * model uses; `HandleAsWritten` follows the code as it stands, which never
 * gets past reading a request field that the schema no longer has.
 */
module AdsRouter {
  import opened Wrappers
  import opened PyStr
  import opened ListParser
  import opened VertexAi
  import opened Prompts
  import opened AdModels
  import Base64

  /** The count used when the request carries an explicit `null`. */
  const NumVariations := 3

  const RangeDetail := "Number of variations must be between 1 and 4."
  const InternalDetail := "An internal server error occurred."
  const TextsHeader := "Failed to generate one or more ad texts."
  const ImagesHeader := "Failed to generate one or more ad images."

  /** The exceptions that can reach the handler's `except` clauses. */
  datatype Raised =
    | HttpException(statusCode: int, detail: string)
    | ValueError(message: string)
    | AttributeError(name: string)

  /** How the body of the `try` ends. */
  datatype Outcome = Returned(response: AdGenerationResponse) | Threw(error: Raised)

  /** What the client receives. */
  datatype HttpReply = Ok(body: AdGenerationResponse) | Fail(statusCode: int, detail: string)

  /** The environment of one request: whether the project identity is set,
      and what the text and image models answer to a prompt (and count). */
  datatype Services = Services(
    projectConfigured: bool,
    gemini: string -> TextReply,
    imagen: (string, int) -> ImageReply)

  function VariationCount(requested: Option<int>): int {
    if requested.Some? then requested.value else NumVariations
  }

  predicate InRange(n: int) {
    1 <= n <= 4
  }

  // ----- the marker checks -----

  /** The text marker test as written: `"Error:" in text or "Sorry," in text`. */
  predicate TextFlaggedAsWritten(text: string) {
    Contains(text, "Error:") || Contains(text, "Sorry,")
  }

  /** The text marker test as intended: also catches the exception placeholder. */
  predicate TextFlagged(text: string) {
    TextFlaggedAsWritten(text) || StartsWith(text, TextExceptionMark)
  }

  /** The image marker test as written: `"Error:" in img_data or "Failed" in img_data`. */
  predicate ImageFlaggedAsWritten(imageData: string) {
    Contains(imageData, "Error:") || Contains(imageData, "Failed")
  }

  /** The image marker test as intended: anything but a data URI. */
  predicate ImageFlagged(imageData: string) {
    !StartsWith(imageData, DataUriPrefix)
  }

  /** `not xs or len(xs) < n or any(flagged(x) for x in xs)`. */
  predicate Rejected(xs: seq<string>, n: int, flagged: string -> bool) {
    |xs| == 0 || |xs| < n || exists i :: 0 <= i < |xs| && flagged(xs[i])
  }

  // ----- failure details -----

  function TextNote(i: nat, text: string): string {
    " Text " + IntToDecimal(i + 1) + ": " + text
  }

  function ImageNote(i: nat): string {
    " Image " + IntToDecimal(i + 1) + " generation failed."
  }

  /** The notes for the flagged entries among the first k texts, in order. */
  function TextNotes(texts: seq<string>, k: nat, flagged: string -> bool): string
    requires k <= |texts|
  {
    if k == 0 then ""
    else TextNotes(texts, k - 1, flagged) + (if flagged(texts[k - 1]) then TextNote(k - 1, texts[k - 1]) else "")
  }

  /** The notes for the flagged entries among the first k images, in order. */
  function ImageNotes(images: seq<string>, k: nat, flagged: string -> bool): string
    requires k <= |images|
  {
    if k == 0 then ""
    else ImageNotes(images, k - 1, flagged) + (if flagged(images[k - 1]) then ImageNote(k - 1) else "")
  }

  /** The `error_detail` loop for the text list. */
  method TextFailureDetail(adTexts: seq<string>, flagged: string -> bool) returns (errorDetail: string)
    ensures errorDetail == TextsHeader + TextNotes(adTexts, |adTexts|, flagged)
  {
    errorDetail := TextsHeader;
    if |adTexts| > 0 {
      for i := 0 to |adTexts|
        invariant errorDetail == TextsHeader + TextNotes(adTexts, i, flagged)
      {
        if flagged(adTexts[i]) {
          errorDetail := errorDetail + TextNote(i, adTexts[i]);
          assert errorDetail == TextsHeader + (TextNotes(adTexts, i, flagged) + TextNote(i, adTexts[i]));
        }
      }
    }
  }

  /** The `error_detail` loop for the image list. */
  method ImageFailureDetail(adImageDataList: seq<string>, flagged: string -> bool) returns (errorDetail: string)
    ensures errorDetail == ImagesHeader + ImageNotes(adImageDataList, |adImageDataList|, flagged)
  {
    errorDetail := ImagesHeader;
    if |adImageDataList| > 0 {
      for i := 0 to |adImageDataList|
        invariant errorDetail == ImagesHeader + ImageNotes(adImageDataList, i, flagged)
      {
        if flagged(adImageDataList[i]) {
          errorDetail := errorDetail + ImageNote(i);
          assert errorDetail == ImagesHeader + (ImageNotes(adImageDataList, i, flagged) + ImageNote(i));
        }
      }
    }
  }

  /** Every flagged text is named in the detail, with its 1-based index. */
  lemma {:induction false} TextNotesNameFlagged(texts: seq<string>, k: nat, flagged: string -> bool, i: nat)
    requires k <= |texts| && i < k && flagged(texts[i])
    ensures Contains(TextNotes(texts, k, flagged), TextNote(i, texts[i]))
  {
    var note := if flagged(texts[k - 1]) then TextNote(k - 1, texts[k - 1]) else "";
    if i == k - 1 {
      ContainsSuffix(TextNotes(texts, k - 1, flagged), TextNote(i, texts[i]));
    } else {
      TextNotesNameFlagged(texts, k - 1, flagged, i);
      ContainsBefore(TextNotes(texts, k - 1, flagged), note, TextNote(i, texts[i]));
    }
  }

  /** The text notes are empty exactly when no text is flagged. */
  lemma {:induction false} TextNotesEmpty(texts: seq<string>, k: nat, flagged: string -> bool)
    requires k <= |texts|
    ensures |TextNotes(texts, k, flagged)| == 0 <==> forall i :: 0 <= i < k ==> !flagged(texts[i])
  {
    if k > 0 {
      TextNotesEmpty(texts, k - 1, flagged);
    }
  }

  /** Every flagged image is named in the detail, with its 1-based index. */
  lemma {:induction false} ImageNotesNameFlagged(images: seq<string>, k: nat, flagged: string -> bool, i: nat)
    requires k <= |images| && i < k && flagged(images[i])
    ensures Contains(ImageNotes(images, k, flagged), ImageNote(i))
  {
    var note := if flagged(images[k - 1]) then ImageNote(k - 1) else "";
    if i == k - 1 {
      ContainsSuffix(ImageNotes(images, k - 1, flagged), ImageNote(i));
    } else {
      ImageNotesNameFlagged(images, k - 1, flagged, i);
      ContainsBefore(ImageNotes(images, k - 1, flagged), note, ImageNote(i));
    }
  }

  // ----- pairing -----

  function MismatchDetail(i: nat): string {
    "Mismatch in generated texts and images count for creative " + IntToDecimal(i + 1) + "."
  }

  /** The pairing loop as a value: the first n text/image pairs, or the
      mismatch error at the first index missing from either list. */
  function Pairing(texts: seq<string>, images: seq<string>, n: int): Outcome {
    if n <= |texts| && n <= |images| then
      var count := if n > 0 then n else 0;
      Returned(AdGenerationResponse(seq(count, i requires 0 <= i < count => AdCreative(texts[i], images[i]))))
    else
      Threw(HttpException(500, MismatchDetail(if |texts| < |images| then |texts| else |images|)))
  }

  /** The `creatives` loop. */
  method PairCreatives(adTexts: seq<string>, adImageDataList: seq<string>, n: int) returns (outcome: Outcome)
    ensures outcome == Pairing(adTexts, adImageDataList, n)
  {
    var creatives: seq<AdCreative> := [];
    var i := 0;
    while i < n
      invariant 0 <= i && i <= |adTexts| && i <= |adImageDataList|
      invariant i <= (if n > 0 then n else 0)
      invariant creatives == seq(i, k requires 0 <= k < i => AdCreative(adTexts[k], adImageDataList[k]))
    {
      if i < |adTexts| && i < |adImageDataList| {
        creatives := creatives + [AdCreative(adTexts[i], adImageDataList[i])];
      } else {
        return Threw(HttpException(500, MismatchDetail(i)));
      }
      i := i + 1;
    }
    var count := if n > 0 then n else 0;
    assert i == count;
    assert creatives == seq(count, k requires 0 <= k < count => AdCreative(adTexts[k], adImageDataList[k]));
    return Returned(AdGenerationResponse(creatives));
  }

  /** Dead guard: once both lists have passed their checks, pairing succeeds
      with exactly n creatives, surplus entries ignored. */
  lemma PairingAfterChecks(texts: seq<string>, images: seq<string>, n: int,
                           textFlag: string -> bool, imageFlag: string -> bool)
    requires n >= 1 && !Rejected(texts, n, textFlag) && !Rejected(images, n, imageFlag)
    ensures Pairing(texts, images, n).Returned?
    ensures var cs := Pairing(texts, images, n).response.creatives;
            |cs| == n && forall i :: 0 <= i < n ==> cs[i] == AdCreative(texts[i], images[i])
  {
  }

  // ----- the handler -----

  function TextsFor(svc: Services, req: AdGenerationRequest, n: int): seq<string> {
    GenerateAdTextWithGemini(svc.projectConfigured,
      svc.gemini(GeminiPrompt(req.product, req.productDescription, req.personaDescription, n)), n)
  }

  function ImagesFor(svc: Services, req: AdGenerationRequest, n: int): seq<string> {
    ImageDataList(svc.projectConfigured,
      svc.imagen(ImagePrompt(req.product, req.productDescription, req.personaDescription, n), n), n)
  }

  /** The body of the `try` with the request's own fields in the prompts,
      for a given pair of marker checks. */
  function TryBodyWith(svc: Services, req: AdGenerationRequest,
                       textFlag: string -> bool, imageFlag: string -> bool): Outcome {
    var n := VariationCount(req.numberOfVariations);
    if !InRange(n) then Threw(HttpException(400, RangeDetail))
    else
      var texts := TextsFor(svc, req, n);
      if Rejected(texts, n, textFlag) then
        Threw(HttpException(500, TextsHeader + TextNotes(texts, |texts|, textFlag)))
      else
        var images := ImagesFor(svc, req, n);
        if Rejected(images, n, imageFlag) then
          Threw(HttpException(500, ImagesHeader + ImageNotes(images, |images|, imageFlag)))
        else Pairing(texts, images, n)
  }

  /** The body of the `try`, as intended: with the corrected marker checks. */
  function TryBody(svc: Services, req: AdGenerationRequest): Outcome {
    TryBodyWith(svc, req, TextFlagged, ImageFlagged)
  }

  /** The `except` clauses, as intended: an HTTP error raised on purpose
      reaches the client unchanged. */
  function Catch(e: Raised): HttpReply {
    match e
    case HttpException(status, detail) => Fail(status, detail)
    case ValueError(message) => Fail(400, message)
    case AttributeError(_) => Fail(500, InternalDetail)
  }

  function HandleWith(svc: Services, req: AdGenerationRequest,
                      textFlag: string -> bool, imageFlag: string -> bool): HttpReply {
    match TryBodyWith(svc, req, textFlag, imageFlag)
    case Returned(response) => Ok(response)
    case Threw(e) => Catch(e)
  }

  function Handle(svc: Services, req: AdGenerationRequest): HttpReply {
    HandleWith(svc, req, TextFlagged, ImageFlagged)
  }

  /** The body of the `try`, imperatively, with the request's own fields in
      the prompts, for a given pair of marker checks. */
  method RunPipeline(svc: Services, req: AdGenerationRequest,
                     textFlag: string -> bool, imageFlag: string -> bool) returns (outcome: Outcome)
    ensures outcome == TryBodyWith(svc, req, textFlag, imageFlag)
  {
    var numToGenerate := if req.numberOfVariations.Some? then req.numberOfVariations.value else NumVariations;
    if !(1 <= numToGenerate <= 4) {
      return Threw(HttpException(400, RangeDetail));
    }
    var geminiPromptText := GeminiPrompt(req.product, req.productDescription, req.personaDescription, numToGenerate);
    var adTexts := GenerateAdTextWithGemini(svc.projectConfigured, svc.gemini(geminiPromptText), numToGenerate);
    if Rejected(adTexts, numToGenerate, textFlag) {
      var errorDetail := TextFailureDetail(adTexts, textFlag);
      return Threw(HttpException(500, errorDetail));
    }
    var imagenPromptText := ImagePrompt(req.product, req.productDescription, req.personaDescription, numToGenerate);
    var adImageDataList := GenerateAdImageWithImagen(svc.projectConfigured, svc.imagen(imagenPromptText, numToGenerate), numToGenerate);
    if Rejected(adImageDataList, numToGenerate, imageFlag) {
      var errorDetail := ImageFailureDetail(adImageDataList, imageFlag);
      return Threw(HttpException(500, errorDetail));
    }
    outcome := PairCreatives(adTexts, adImageDataList, numToGenerate);
  }

  /** `generate_ad_content_api(request)`, as intended. */
  method GenerateAdContentApi(svc: Services, req: AdGenerationRequest) returns (reply: HttpReply)
    ensures reply == Handle(svc, req)
  {
    var outcome := RunPipeline(svc, req, TextFlagged, ImageFlagged);
    match outcome
    case Returned(response) => reply := Ok(response);
    case Threw(e) => reply := Catch(e);
  }

  // ----- properties of the intended handler -----

  /** Default count: an explicit `null` gives 3 variations, an omitted field
      the schema default of 1. */
  lemma DefaultCount(product: string, productDescription: string, persona: BodyField<string>)
    ensures VariationCount(ParseRequest(product, productDescription, persona, Null).numberOfVariations) == 3
    ensures VariationCount(ParseRequest(product, productDescription, persona, Omitted).numberOfVariations) == 1
  {
  }

  /** Range check first: a count outside 1..4 is a 400, whatever the models
      would have answered. */
  lemma RangeCheckFirst(svc: Services, req: AdGenerationRequest)
    requires !InRange(VariationCount(req.numberOfVariations))
    ensures Handle(svc, req) == Fail(400, RangeDetail)
  {
  }

  lemma TextExceptionMarked(n: int, message: string)
    ensures StartsWith(TextException(n, message), TextExceptionMark)
  {
    StartsWithPlus(TextExceptionMark, " for ");
    StartsWithExtend(TextExceptionMark + " for ", TextExceptionMark, IntToDecimal(n));
    StartsWithExtend(TextExceptionMark + " for " + IntToDecimal(n), TextExceptionMark, " variations: ");
    StartsWithExtend(TextExceptionMark + " for " + IntToDecimal(n) + " variations: ", TextExceptionMark, message);
  }

  /** Every placeholder of the text normaliser fails the intended check, so a
      text list that passes it is the model's own text: the whole stripped
      reply for one variation, exactly n parsed items for several. */
  lemma TextsAccepted(projectConfigured: bool, reply: TextReply, n: int)
    requires InRange(n)
    ensures var texts := GenerateAdTextWithGemini(projectConfigured, reply, n);
            !Rejected(texts, n, TextFlagged) ==>
              projectConfigured && reply.GeminiReplied? && reply.firstPartText.Some?
              && (n == 1 ==> texts == [Strip(reply.firstPartText.value)])
              && (n > 1 ==> texts == ParseListResponse(reply.firstPartText.value, n) && |texts| == n)
  {
    var texts := GenerateAdTextWithGemini(projectConfigured, reply, n);
    if !projectConfigured {
      assert TextFlagged(texts[0]);
    } else {
      match reply
      case GeminiRaised(e) =>
        TextExceptionMarked(n, e);
        assert TextFlagged(texts[0]);
      case GeminiReplied(None) =>
        assert TextFlagged(texts[0]);
      case GeminiReplied(Some(raw)) =>
        if n > 1 && |Strip(raw)| == 0 {
          StartsWithPlus("Error:", " Could not parse " + IntToDecimal(n) + " ad texts from response.");
          assert TextFlagged(texts[0]);
        }
    }
  }

  /** Every placeholder of the image normaliser fails the intended check, so
      an image list that passes it holds, for each of the n creatives, the
      data URI of an image the model returned with bytes. */
  lemma ImagesAccepted(projectConfigured: bool, reply: ImageReply, n: int)
    requires InRange(n)
    requires !Rejected(ImageDataList(projectConfigured, reply, n), n, ImageFlagged)
    ensures projectConfigured && reply.ImagenReplied? && n <= |reply.images|
    ensures var images := ImageDataList(projectConfigured, reply, n);
            forall i :: 0 <= i < n ==>
              reply.images[i].Some? && |reply.images[i].value| > 0 && images[i] == DataUri(reply.images[i].value)
  {
    var images := ImageDataList(projectConfigured, reply, n);
    ImageEntryGenuine(projectConfigured, reply, n, 0);
    ImageEntryGenuine(projectConfigured, reply, n, n - 1);
    forall i | 0 <= i < n
      ensures i < |reply.images| && reply.images[i].Some? && |reply.images[i].value| > 0
      ensures images[i] == DataUri(reply.images[i].value)
    {
      ImageEntryGenuine(projectConfigured, reply, n, i);
    }
  }

  /** The handler succeeds exactly when the count is in range and both lists
      pass their checks. */
  lemma HandleOkIff(svc: Services, req: AdGenerationRequest)
    ensures var n := VariationCount(req.numberOfVariations);
            Handle(svc, req).Ok? <==>
              InRange(n) && !Rejected(TextsFor(svc, req, n), n, TextFlagged)
              && !Rejected(ImagesFor(svc, req, n), n, ImageFlagged)
  {
    var n := VariationCount(req.numberOfVariations);
    if InRange(n) && !Rejected(TextsFor(svc, req, n), n, TextFlagged)
       && !Rejected(ImagesFor(svc, req, n), n, ImageFlagged) {
      PairingAfterChecks(TextsFor(svc, req, n), ImagesFor(svc, req, n), n, TextFlagged, ImageFlagged);
    }
  }

  /** Success shape: n creatives, creative i pairing the model's i-th text
      with the data URI of the model's i-th image. */
  lemma SuccessShape(svc: Services, req: AdGenerationRequest)
    requires Handle(svc, req).Ok?
    ensures var n := VariationCount(req.numberOfVariations);
            var cs := Handle(svc, req).body.creatives;
            var textReply := svc.gemini(GeminiPrompt(req.product, req.productDescription, req.personaDescription, n));
            var imageReply := svc.imagen(ImagePrompt(req.product, req.productDescription, req.personaDescription, n), n);
            InRange(n) && |cs| == n && svc.projectConfigured
            && textReply.GeminiReplied? && textReply.firstPartText.Some?
            && imageReply.ImagenReplied? && n <= |imageReply.images|
            && (forall i :: 0 <= i < n ==>
                  cs[i].adText == TextsFor(svc, req, n)[i] && !TextFlagged(cs[i].adText)
                  && imageReply.images[i].Some?
                  && cs[i].adImageData == DataUri(imageReply.images[i].value))
  {
    var n := VariationCount(req.numberOfVariations);
    HandleOkIff(svc, req);
    var textReply := svc.gemini(GeminiPrompt(req.product, req.productDescription, req.personaDescription, n));
    var imageReply := svc.imagen(ImagePrompt(req.product, req.productDescription, req.personaDescription, n), n);
    PairingAfterChecks(TextsFor(svc, req, n), ImagesFor(svc, req, n), n, TextFlagged, ImageFlagged);
    TextsAccepted(svc.projectConfigured, textReply, n);
    ImagesAccepted(svc.projectConfigured, imageReply, n);
  }

  /** Error replies: a 400 for the range, otherwise a 500 whose detail opens
      with the text or the image header (the mismatch error never occurs). */
  lemma ErrorReplies(svc: Services, req: AdGenerationRequest)
    requires Handle(svc, req).Fail?
    ensures var r := Handle(svc, req);
            r == Fail(400, RangeDetail)
            || (r.statusCode == 500 && (StartsWith(r.detail, TextsHeader) || StartsWith(r.detail, ImagesHeader)))
  {
    var n := VariationCount(req.numberOfVariations);
    if InRange(n) {
      var texts := TextsFor(svc, req, n);
      if Rejected(texts, n, TextFlagged) {
        StartsWithPlus(TextsHeader, TextNotes(texts, |texts|, TextFlagged));
      } else {
        var images := ImagesFor(svc, req, n);
        if Rejected(images, n, ImageFlagged) {
          StartsWithPlus(ImagesHeader, ImageNotes(images, |images|, ImageFlagged));
        } else {
          PairingAfterChecks(texts, images, n, TextFlagged, ImageFlagged);
        }
      }
    }
  }

  /** Config failure always rejected: for every count in 1..4 the
      missing-configuration outputs fail both checks, as written and as
      intended. */
  lemma ConfigFailureRejected(n: int)
    requires InRange(n)
    ensures Rejected([TextConfigError(n)], n, TextFlaggedAsWritten) && Rejected([TextConfigError(n)], n, TextFlagged)
    ensures Rejected([ImageConfigError(n)], n, ImageFlaggedAsWritten) && Rejected([ImageConfigError(n)], n, ImageFlagged)
  {
    StartsWithPlus("Error:", " GCP_PROJECT_ID not configured. Cannot call Gemini for " + IntToDecimal(n) + " variations.");
    StartsWithPlus("Error:", " GCP_PROJECT_ID not configured. Cannot call Imagen for " + IntToDecimal(n) + " images.");
    ErrorTextNotUri("Error:", " GCP_PROJECT_ID not configured. Cannot call Imagen for " + IntToDecimal(n) + " images.");
    assert TextFlaggedAsWritten([TextConfigError(n)][0]);
    assert ImageFlaggedAsWritten([ImageConfigError(n)][0]);
  }

  /** Without a project identity the handler answers a 500 that names the
      text placeholder as text 1. */
  lemma ConfigFailureReply(svc: Services, req: AdGenerationRequest)
    requires !svc.projectConfigured && InRange(VariationCount(req.numberOfVariations))
    ensures var n := VariationCount(req.numberOfVariations);
            Handle(svc, req) == Fail(500, TextsHeader + TextNote(0, TextConfigError(n)))
  {
    var n := VariationCount(req.numberOfVariations);
    ConfigFailureRejected(n);
    var texts := TextsFor(svc, req, n);
    assert texts == [TextConfigError(n)];
    StartsWithPlus("Error:", " GCP_PROJECT_ID not configured. Cannot call Gemini for " + IntToDecimal(n) + " variations.");
    assert TextFlagged(texts[0]);
    assert Rejected(texts, n, TextFlagged);
    var note := TextNote(0, TextConfigError(n));
    assert TextNotes(texts, 1, TextFlagged) == note by {
      assert TextNotes(texts, 1, TextFlagged) == "" + note;
      assert "" + note == note;
    }
    assert TryBody(svc, req) == Threw(HttpException(500, TextsHeader + note));
  }

  /** A text failure reply names every flagged text with its 1-based index. */
  lemma TextFailureNamesEntries(svc: Services, req: AdGenerationRequest, i: nat)
    requires var n := VariationCount(req.numberOfVariations);
             InRange(n) && Rejected(TextsFor(svc, req, n), n, TextFlagged)
    requires var n := VariationCount(req.numberOfVariations);
             i < |TextsFor(svc, req, n)| && TextFlagged(TextsFor(svc, req, n)[i])
    ensures var n := VariationCount(req.numberOfVariations);
            Handle(svc, req).Fail? && Handle(svc, req).statusCode == 500
            && Contains(Handle(svc, req).detail, TextNote(i, TextsFor(svc, req, n)[i]))
  {
    var n := VariationCount(req.numberOfVariations);
    var texts := TextsFor(svc, req, n);
    TextNotesNameFlagged(texts, |texts|, TextFlagged, i);
    ContainsAfter(TextsHeader, TextNotes(texts, |texts|, TextFlagged), TextNote(i, texts[i]));
  }

  // ----- the handler as written -----

  /** The prompt call as written: the request's (absent) customer type lands
      in `product`, the product in `product_description` and the product
      description in `persona_description`. */
  function GeminiPromptAsWritten(customerType: string, req: AdGenerationRequest, n: int): string {
    GeminiPrompt(customerType, req.product, Some(req.productDescription), n)
  }

  /** The body of the `try` as written: after the range check, evaluating
      `request.customer_type` raises, before any prompt is built. */
  function TryBodyAsWritten(svc: Services, req: AdGenerationRequest): Outcome {
    var n := VariationCount(req.numberOfVariations);
    if !InRange(n) then Threw(HttpException(400, RangeDetail))
    else Threw(AttributeError("customer_type"))
  }

  /** The `except` clauses as written: `except Exception` also catches the
      handler's own HTTP errors. */
  function CatchAsWritten(e: Raised): HttpReply {
    match e
    case ValueError(message) => Fail(400, message)
    case _ => Fail(500, InternalDetail)
  }

  function HandleAsWritten(svc: Services, req: AdGenerationRequest): HttpReply {
    match TryBodyAsWritten(svc, req)
    case Returned(response) => Ok(response)
    case Threw(e) => CatchAsWritten(e)
  }

  /** As written, every request is answered with the generic 500. */
  lemma AsWrittenAlwaysInternalError(svc: Services, req: AdGenerationRequest)
    ensures HandleAsWritten(svc, req) == Fail(500, InternalDetail)
  {
  }

  /** As written, an HTTP error raised inside the `try` becomes the generic
      500; as intended it reaches the client unchanged. */
  lemma HttpErrorsMasked(status: int, detail: string)
    ensures CatchAsWritten(HttpException(status, detail)) == Fail(500, InternalDetail)
    ensures Catch(HttpException(status, detail)) == Fail(status, detail)
  {
  }

  /** As written, the request's persona never reaches the text prompt, and
      the product description takes its place. */
  lemma AsWrittenPromptDropsPersona(customerType: string, req: AdGenerationRequest, persona: Option<string>, n: int)
    ensures GeminiPromptAsWritten(customerType, req, n)
            == GeminiPromptAsWritten(customerType, req.(personaDescription := persona), n)
    ensures |req.productDescription| > 0 ==>
              Contains(GeminiPromptAsWritten(customerType, req, n),
                       "Tailor the message for the following Target Persona: " + req.productDescription + ". ")
  {
    GeminiPersonaClause(customerType, req.product, Some(req.productDescription), n);
  }

  /** As intended, a truthy persona is named in the text prompt, and two
      different truthy personas give different prompts. */
  lemma PromptCarriesPersona(req: AdGenerationRequest, other: string, n: int)
    requires Truthy(req.personaDescription) && other != "" && other != req.personaDescription.value
    ensures Contains(GeminiPrompt(req.product, req.productDescription, req.personaDescription, n),
                     "Tailor the message for the following Target Persona: " + req.personaDescription.value + ". ")
    ensures GeminiPrompt(req.product, req.productDescription, req.personaDescription, n)
            != GeminiPrompt(req.product, req.productDescription, Some(other), n)
  {
    GeminiPersonaClause(req.product, req.productDescription, req.personaDescription, n);
    GeminiPromptsDifferInPersonaOnly(req.product, req.productDescription, req.personaDescription, Some(other), n);
    MiddleCancel("Tailor the message for the following Target Persona: ", req.personaDescription.value, other, ". ");
  }

  lemma SextetsOfFailed()
    ensures Base64.Sextet(5) == 'F' && Base64.Sextet(26) == 'a' && Base64.Sextet(34) == 'i' && Base64.Sextet(37) == 'l'
    ensures Base64.Sextet(30) == 'e' && Base64.Sextet(29) == 'd' && Base64.Sextet(0) == 'A'
  {
  }

  lemma EncodeEdAA(tail: seq<Base64.byte>)
    requires tail == [121, 208, 0]
    ensures Base64.Encode(tail) == ['e', 'd', 'A', 'A']
  {
    SextetsOfFailed();
    assert tail[0] / 4 == 30 && (tail[0] % 4) * 16 + tail[1] / 16 == 29;
    assert (tail[1] % 16) * 4 + tail[2] / 64 == 0 && tail[2] % 64 == 0;
    assert tail[3..] == [];
  }

  /** Six bytes whose base64 encoding is "FailedAA". */
  lemma FailedBytesEncoding(b: seq<Base64.byte>)
    requires b == [21, 168, 165, 121, 208, 0]
    ensures Base64.Encode(b) == "Failed" + "AA"
  {
    SextetsOfFailed();
    var tail := b[3..];
    assert tail == [121, 208, 0];
    EncodeEdAA(tail);
    assert b[0] / 4 == 5 && (b[0] % 4) * 16 + b[1] / 16 == 26;
    assert (b[1] % 16) * 4 + b[2] / 64 == 34 && b[2] % 64 == 37;
    assert Base64.Encode(b) == ['F', 'a', 'i', 'l'] + ['e', 'd', 'A', 'A'];
  }

  /** As written, a genuine image whose payload contains "Failed" (such as
      the bytes of `FailedBytesEncoding`) is rejected; the intended check
      accepts it. */
  lemma FailedInsideGenuineUri(bytes: seq<Base64.byte>, before: string, after: string)
    requires Base64.Encode(bytes) == before + "Failed" + after
    ensures ImageFlaggedAsWritten(DataUri(bytes))
    ensures !ImageFlagged(DataUri(bytes))
  {
    ContainsMiddle(before, "Failed", after);
    ContainsAfter(DataUriPrefix, Base64.Encode(bytes), "Failed");
    DataUriNeverError(bytes);
  }

  /** As intended, every genuine data URI passes and every image placeholder
      fails the image check. */
  lemma ImageCheckSeparates(bytes: seq<Base64.byte>, n: int, message: string)
    ensures !ImageFlagged(DataUri(bytes))
    ensures ImageFlagged(ImageConfigError(n)) && ImageFlagged(ImageException(message))
    ensures ImageFlagged(NoImagesPlaceholder) && ImageFlagged(NoBytesPlaceholder) && ImageFlagged(FewerPlaceholder)
  {
    DataUriNeverError(bytes);
    ErrorTextNotUri("Error:", " GCP_PROJECT_ID not configured. Cannot call Imagen for " + IntToDecimal(n) + " images.");
    ErrorTextNotUri("Error generating ad" + " image" + ": An unexpected error occurred." + " Details: ", message);
    ErrorTextNotUri("Error:", " Image generation failed or no images returned.");
    ErrorTextNotUri("Error:", " Image generation failed for this item (no bytes).");
    ErrorTextNotUri("Error:", " Image not generated for this item (fewer returned than requested).");
  }

  /** As written, the text exception placeholder carries neither marker, so
      it passes the text check whenever the exception's message lacks the
      letters E and S (for instance "timeout"). */
  lemma TextExceptionPassesAsWritten(n: nat, message: string)
    requires 'E' !in message && 'S' !in message
    ensures !TextFlaggedAsWritten(TextException(n, message))
  {
    var d := NatToDecimal(n);
    assert 'E' !in d && 'S' !in d;
    Regroup(TextExceptionMark + " for ", d, " variations: ", message);
    NotContainsAt(TextExceptionMark, " for ", d + " variations: " + message, "Error:");
    NotContainsChar(TextException(n, message), "Sorry,");
  }

  /** As written, the image exception placeholder carries neither marker, so
      it passes the image check whenever the exception's message lacks the
      letters E and F (for instance "timeout"). */
  lemma ImageExceptionPassesAsWritten(message: string)
    requires 'E' !in message && 'F' !in message
    ensures !ImageFlaggedAsWritten(ImageException(message))
  {
    var rest := ": An unexpected error occurred." + " Details: " + message;
    Regroup("Error generating ad" + " image", ": An unexpected error occurred.", " Details: ", message);
    NotContainsAt("Error generating ad", " image", rest, "Error:");
    NotContainsChar(ImageException(message), "Failed");
  }

  /** As intended, the exception placeholders fail both checks, whatever the
      exception's message. */
  lemma ExceptionPlaceholdersFlagged(n: int, message: string)
    ensures TextFlagged(TextException(n, message))
    ensures ImageFlagged(ImageException(message))
  {
    TextExceptionMarked(n, message);
    ErrorTextNotUri("Error generating ad" + " image" + ": An unexpected error occurred." + " Details: ", message);
  }

  // ----- the source's marker checks inside the handler -----

  /** Genuine images whose encodings lack "Failed" pass the image check as
      written, each as its data URI. */
  lemma GenuineImagesPassAsWritten(images: seq<Option<seq<Base64.byte>>>, n: nat)
    requires 1 <= n <= |images|
    requires forall i :: 0 <= i < n ==>
               images[i].Some? && |images[i].value| > 0 && !Contains(Base64.Encode(images[i].value), "Failed")
    ensures var r := ImageDataList(true, ImagenReplied(images), n);
            |r| == n && forall i :: 0 <= i < n ==> r[i] == DataUri(images[i].value) && !ImageFlaggedAsWritten(r[i])
  {
    ImageListShape(images, n);
    var r := ImageDataList(true, ImagenReplied(images), n);
    forall i | 0 <= i < n
      ensures !ImageFlaggedAsWritten(r[i])
    {
      var b := images[i].value;
      DataUriNeverError(b);
      assert 'F' !in DataUriPrefix;
      if Contains(DataUri(b), "Failed") {
        ContainsSkip(DataUriPrefix, Base64.Encode(b), "Failed");
      }
    }
  }

  /** With the source's own marker checks (and the request's fields in the
      prompts), a text model that raises and genuine images give a success
      whose every ad text is the exception placeholder; the intended checks
      answer a 500 instead. */
  lemma ExceptionTextsShippedAsWritten(svc: Services, req: AdGenerationRequest, message: string)
    requires var n := VariationCount(req.numberOfVariations);
             InRange(n) && svc.projectConfigured && 'E' !in message && 'S' !in message
             && svc.gemini(GeminiPrompt(req.product, req.productDescription, req.personaDescription, n))
                == GeminiRaised(message)
    requires var n := VariationCount(req.numberOfVariations);
             var reply := svc.imagen(ImagePrompt(req.product, req.productDescription, req.personaDescription, n), n);
             reply.ImagenReplied? && n <= |reply.images|
             && forall i :: 0 <= i < n ==>
                  reply.images[i].Some? && |reply.images[i].value| > 0
                  && !Contains(Base64.Encode(reply.images[i].value), "Failed")
    ensures var n := VariationCount(req.numberOfVariations);
            var r := HandleWith(svc, req, TextFlaggedAsWritten, ImageFlaggedAsWritten);
            r.Ok? && |r.body.creatives| == n
            && (forall i :: 0 <= i < n ==> r.body.creatives[i].adText == TextException(n, message))
    ensures Handle(svc, req).Fail? && Handle(svc, req).statusCode == 500
  {
    var n := VariationCount(req.numberOfVariations);
    var texts := TextsFor(svc, req, n);
    assert texts == Repeat(TextException(n, message), n);
    TextExceptionPassesAsWritten(n, message);
    assert !Rejected(texts, n, TextFlaggedAsWritten);
    var reply := svc.imagen(ImagePrompt(req.product, req.productDescription, req.personaDescription, n), n);
    GenuineImagesPassAsWritten(reply.images, n);
    var images := ImagesFor(svc, req, n);
    assert !Rejected(images, n, ImageFlaggedAsWritten);
    PairingAfterChecks(texts, images, n, TextFlaggedAsWritten, ImageFlaggedAsWritten);
    ExceptionPlaceholdersFlagged(n, message);
    assert TextFlagged(texts[0]);
  }

  /** With the source's own marker checks, when both models raise with such
      a message the handler succeeds with n creatives made only of the two
      exception placeholders. */
  lemma ExceptionsShippedAsWritten(svc: Services, req: AdGenerationRequest, message: string)
    requires var n := VariationCount(req.numberOfVariations);
             InRange(n) && svc.projectConfigured && 'E' !in message && 'S' !in message && 'F' !in message
             && svc.gemini(GeminiPrompt(req.product, req.productDescription, req.personaDescription, n))
                == GeminiRaised(message)
             && svc.imagen(ImagePrompt(req.product, req.productDescription, req.personaDescription, n), n)
                == ImagenRaised(message)
    ensures var n := VariationCount(req.numberOfVariations);
            HandleWith(svc, req, TextFlaggedAsWritten, ImageFlaggedAsWritten)
            == Ok(AdGenerationResponse(Repeat(AdCreative(TextException(n, message), ImageException(message)), n)))
  {
    var n := VariationCount(req.numberOfVariations);
    var texts := TextsFor(svc, req, n);
    var images := ImagesFor(svc, req, n);
    assert texts == Repeat(TextException(n, message), n);
    assert images == Repeat(ImageException(message), n);
    TextExceptionPassesAsWritten(n, message);
    ImageExceptionPassesAsWritten(message);
    assert !Rejected(texts, n, TextFlaggedAsWritten);
    assert !Rejected(images, n, ImageFlaggedAsWritten);
    assert Pairing(texts, images, n).response.creatives
           == Repeat(AdCreative(TextException(n, message), ImageException(message)), n);
  }
}
