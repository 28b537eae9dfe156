# Ad generator backend: a Dafny model

This project models the backend of an advertisement generator. A client posts a product, its description, an optional target persona and a variation count. The service then:

1. checks the count;
2. builds a text prompt and an image prompt;
3. asks a hosted text model for the ad copy and a hosted image model for the pictures;
4. normalises both answers into lists of strings, with error placeholders where something went wrong;
5. screens those lists for placeholders;
6. pairs the texts and images by index into creatives.

A separate service folds the rows of a warehouse query into a map from column name to column values.

The hosted models and the warehouse are not modelled. What they answer is an input:

- whether the project identity is configured;
- the text reply, the image reply or the exception raised;
- the rows the query returned, or its failure.

The model covers everything the service does with those answers.

Modules, one per source file (plus two shared ones):

| module | file | models |
|---|---|---|
| `Wrappers`, `PyStr` | `pystr.dfy` | `Option`, and the Python `str` builtins the code uses: `isspace`, `strip`, `split('\n')`, `split()`, `in`, slicing, `str(int)` and the truthiness of an optional string |
| `Base64` | `base64.dfy` | standard base64 (section 4 of RFC 4648, `=` padding) |
| `ListParser` | `parser.dfy` | `parse_gemini_list_response`. The numbered-line regular expression becomes a greedy character-by-character scan, checked against a direct description of what the pattern accepts, and `findall` becomes the scan repeated over the text |
| `VertexAi` | `vertex.dfy` | the text and image result normalisers; the image one as a method with its two loops |
| `Prompts` | `prompts.dfy` | the two prompt templates |
| `AdModels` | `models.dfy` | the request and response schema and its field defaults |
| `AdsRouter` | `router.dfy` | the `POST /generate_ad_content` handler, both as written and as evidently intended |
| `PersonaData` | `bigquery.dfy` | `get_persona_data`: its configuration check, its query outcome and its nested row-to-column loop |

The handler as written never gets past reading a request field the schema no longer has (see Findings). The model therefore keeps two versions:

- `HandleAsWritten` is the code as it stands; the lemmas about it show the defects.
- `Handle` is the corrected handler. It reads the request's own fields, passes HTTP errors through and uses marker checks that recognise every placeholder. The properties of the pipeline are proved about this version.

### Where the specification and the code disagree

The model follows the code in each case:

- **Default count.** The specification gives two different defaults: 1 for the request record and 3 for the endpoint. In the code, an omitted `number_of_variations` becomes 1 (the schema default, `backend/app/models/ad_models.py:10`). Only an explicit `null` reaches the handler's default of 3 (`backend/app/routers/ads.py:9`, `:18`). `AdModels.ParseRequest` and `AdsRouter.DefaultCount` state both.
- **Short text lists.** The specification says the response is never silently truncated below the count. The text normaliser does return a short parse unpadded (`backend/app/services/vertex_ai_service.py:95-99`); it is the handler's length check that rejects it.
- **Persona.** The specification allows either free text or a two-valued category for the persona descriptor. The code uses free text only.

## Model

| member | source | states |
|---|---|---|
| PyStr.LeadEnd | backend/app/services/vertex_ai_service.py:52 | where `lstrip` stops, which is also the end of a greedy `\s*`: the longest run of whitespace from a position |
| PyStr.Strip | backend/app/services/vertex_ai_service.py:56 | `str.strip()`: the result has no whitespace at either end and is no longer than the input |
| PyStr.StripSlice | backend/app/services/vertex_ai_service.py:56 | the stripped text is a slice of the input with only whitespace cut away before and after it |
| PyStr.StripBlank | backend/app/services/vertex_ai_service.py:68 | the stripped text is empty exactly when the text is all whitespace (the truthiness test of `text_response.strip()`) |
| PyStr.StripIdempotent | backend/app/services/vertex_ai_service.py:61 | stripping twice is stripping once |
| PyStr.StrippedIsFixpoint | backend/app/services/vertex_ai_service.py:61 | a text with no whitespace at either end is its own strip |
| PyStr.SplitLines | backend/app/services/vertex_ai_service.py:61 | `split('\n')` gives at least one piece and no piece holds a newline |
| PyStr.SplitLinesJoin | backend/app/services/vertex_ai_service.py:61 | joining the pieces of `split('\n')` with newlines gives back the text |
| PyStr.SplitLinesJoinTexts | backend/app/services/vertex_ai_service.py:61 | splitting two texts joined by a newline gives the lines of the first, then the lines of the second |
| PyStr.SplitLinesAllSpace | backend/app/services/vertex_ai_service.py:61 | every line of an all-whitespace text is all whitespace |
| PyStr.WordCount | backend/app/services/vertex_ai_service.py:64 | `len(s.split())` is the number of word starts (a non-whitespace character at the front or after whitespace); a text with a word is not all whitespace |
| PyStr.WordsFromStarts | backend/app/services/vertex_ai_service.py:64 | counting the maximal runs of non-whitespace from a word boundary counts the word starts after it |
| PyStr.Take | backend/app/services/vertex_ai_service.py:77 | `items[:n]` with Python's meaning for negative n: its length, and that it is a prefix |
| PyStr.Repeat | backend/app/services/vertex_ai_service.py:102 | `[x for _ in range(n)]`: max(n, 0) copies of x |
| PyStr.NatToDecimal | backend/app/services/prompt_service.py:12 | the decimal literal of a count: digits only, at least one, no leading zero |
| PyStr.DecimalRoundTrip | backend/app/services/prompt_service.py:12 | reading the decimal literal back gives the count |
| PyStr.IntToDecimal | backend/app/services/vertex_ai_service.py:82 | `f"{n}"`: a minus sign exactly when n is negative, then at least one digit and no leading zero, and the digits read back as the magnitude of n |
| Base64.Sextet | backend/app/services/vertex_ai_service.py:139 | every 6-bit value maps into the RFC 4648 section 4 alphabet, never to the pad |
| Base64.Encode | backend/app/services/vertex_ai_service.py:139 | `b64encode`: four characters per started group of three bytes, all from the alphabet |
| ListParser.LineEnd | backend/app/services/vertex_ai_service.py:52 | greedy `(.*)`: up to the next newline or the end |
| ListParser.Scan | backend/app/services/vertex_ai_service.py:52 | the pattern read one character at a time from a phase: a match ends at or after the position and inside the text, and strictly after it in every phase before the mark |
| ListParser.MatchAt | backend/app/services/vertex_ai_service.py:52 | one attempt of the pattern under `^` in multiline mode: none off a line start; a match consumes at least one character and ends inside the text |
| ListParser.MatchAtPattern | backend/app/services/vertex_ai_service.py:52 | an attempt at i matches exactly when the text from the line start i is whitespace, one or more digits, whitespace, then `.` or `)`; for every such layout the capture is the rest of the line after the whitespace that follows the mark |
| ListParser.MatchAtFromPattern | backend/app/services/vertex_ai_service.py:52 | a given layout of the prefix fixes the match: its capture and its end |
| ListParser.ScanOneLine | backend/app/services/vertex_ai_service.py:52 | `(.*)` stops at a newline: no capture holds one |
| ListParser.LeadNeedsDigit | backend/app/services/vertex_ai_service.py:52 | without a digit ahead the scan from a line start fails |
| ListParser.CapturesOneLine | backend/app/services/vertex_ai_service.py:53 | no capture of `findall` holds a newline |
| ListParser.MidLineNoMatch | backend/app/services/vertex_ai_service.py:52 | no attempt matches off a line start |
| ListParser.MatchNumberedLine | backend/app/services/vertex_ai_service.py:52 | a line `<digits>. <content>`, with non-empty content that does not start with whitespace, is one match capturing the content |
| ListParser.BareLabelMatch | backend/app/services/vertex_ai_service.py:52 | a last line that is just `<digits>.` matches with an empty capture |
| ListParser.FindAllNeedsDigit | backend/app/services/vertex_ai_service.py:52-53 | a text without digits has no captures |
| ListParser.NumberedLinesCaptured | backend/app/services/vertex_ai_service.py:52-53 | any number of numbered lines `<digits>. <content>` (non-empty content not starting with whitespace) joined by newlines: `findall` captures exactly the contents, in order |
| ListParser.TrailingBareLabel | backend/app/services/vertex_ai_service.py:52-53 | the same lines followed by a bare `<digits>.` line: the contents, then one empty capture |
| ListParser.TextCaptured | backend/app/services/vertex_ai_service.py:52-53 | the induction over the lines behind both: from any line start, the captures of the remaining lines |
| ListParser.StripAll | backend/app/services/vertex_ai_service.py:56 | every capture is stripped, none is dropped |
| ListParser.NumberedItems | backend/app/services/vertex_ai_service.py:53-56 | stage 1: one item per capture, item i the stripped capture i; empty captures are kept as "" |
| ListParser.NonBlankLines | backend/app/services/vertex_ai_service.py:61 | the fallback lines are stripped and non-empty, and no more numerous than the lines |
| ListParser.NonBlankLinesMembers | backend/app/services/vertex_ai_service.py:61 | a text is a fallback line exactly when it is a stripped line and non-empty |
| ListParser.NonBlankLinesConcat | backend/app/services/vertex_ai_service.py:61 | the filter keeps order: filtering a concatenation concatenates the filtered parts |
| ListParser.MoreThanThreeWords | backend/app/services/vertex_ai_service.py:64 | the kept items have more than three words and come from the input, no more of them than the input |
| ListParser.MoreThanThreeWordsMembers | backend/app/services/vertex_ai_service.py:64 | an item is kept exactly when it is in the input and has more than three words |
| ListParser.MoreThanThreeWordsConcat | backend/app/services/vertex_ai_service.py:64 | the filter keeps order: filtering a concatenation concatenates the filtered parts |
| ListParser.LongLines | backend/app/services/vertex_ai_service.py:60-64 | stage 2: every item is a stripped, non-empty line of more than three words |
| ListParser.LongLinesMembers | backend/app/services/vertex_ai_service.py:60-64 | a text is a stage-2 item exactly when it is a stripped, non-empty line of the text with more than three words |
| ListParser.LongLinesJoin | backend/app/services/vertex_ai_service.py:60-64 | stage 2 keeps line order: two texts joined by a newline give the items of the first, then those of the second |
| ListParser.ParseListResponse | backend/app/services/vertex_ai_service.py:44-77 | length bound n; every item stripped; with at least n captures, the first n captures; with fewer, all captures discarded for the long lines, else the whole stripped block |
| ListParser.ParseEmptyIffBlank | backend/app/services/vertex_ai_service.py:60-77 | for n >= 1 the result is empty exactly when the stripped text is empty |
| ListParser.BlankLinesDropped | backend/app/services/vertex_ai_service.py:61 | all-whitespace lines are all filtered out |
| ListParser.LineEndAt | backend/app/services/vertex_ai_service.py:52 | `(.*)` stops at the first newline |
| ListParser.FindAll | backend/app/services/vertex_ai_service.py:52-53 | (no contract of its own) `pattern.findall` scanning the text from a position; stated by FindAllMatch, FindAllNoMatch, CapturesOneLine, FindAllNeedsDigit and NumberedLinesCaptured |
| ListParser.FindAllMatch | backend/app/services/vertex_ai_service.py:53 | after a match the scan resumes where it ended |
| ListParser.FindAllNoMatch | backend/app/services/vertex_ai_service.py:53 | without a match the scan moves on by one position |
| ListParser.TwoNumberedParse | backend/app/services/vertex_ai_service.py:52-56 | two numbered stripped lines, asked for two items, parse to their contents |
| ListParser.RegexStageExact | backend/app/services/vertex_ai_service.py:55-77 | when stage 1 finds exactly n items they are the result |
| ListParser.StrippedCaptures | backend/app/services/vertex_ai_service.py:55-56 | captures that are already stripped are the stage-1 items unchanged |
| ListParser.StrippedParse | backend/app/services/vertex_ai_service.py:52-77 | asked for as many items as there are stripped captures, the parse returns the captures |
| ListParser.ParseNumberedLines | backend/app/services/vertex_ai_service.py:44-77 | numbered lines with stripped contents, asked for as many items as lines, parse to the contents in order |
| ListParser.ParseTrailingBareLabel | backend/app/services/vertex_ai_service.py:44-77 | the same lines with a trailing bare `<digits>.`, asked for one more item, parse to the contents and a final "" |
| ListParser.NumberedExample | backend/app/services/vertex_ai_service.py:52-77 | `"1. Alpha beta gamma delta\n2. Epsilon zeta eta theta"` with n = 2 parses to the two contents |
| ListParser.SplitTwoLines | backend/app/services/vertex_ai_service.py:61 | two newline-free pieces joined by a newline split back into them |
| ListParser.SplitNoNewline | backend/app/services/vertex_ai_service.py:61 | a text without newline is one line |
| ListParser.FindAllNoMatches | backend/app/services/vertex_ai_service.py:53 | a text where no attempt matches has no captures |
| ListParser.FallbackTwoLines | backend/app/services/vertex_ai_service.py:60-64 | two long lines that do not start with a digit (so neither is numbered), asked for two items, come back as they are |
| ListParser.TwoLongLines | backend/app/services/vertex_ai_service.py:61-64 | two stripped long lines pass both fallback filters |
| VertexAi.GenerateAdTextWithGemini | backend/app/services/vertex_ai_service.py:79-110 | no project identity: one "Error:" string for any n; an exception: n placeholders with its message; no candidate: n "Sorry," strings; n <= 1: the stripped raw text; n > 1: between 1 and n items, the parse for a non-blank text (unpadded when short) and n parse-error placeholders for a blank one |
| VertexAi.GenerateAdImageWithImagen | backend/app/services/vertex_ai_service.py:112-161 | the two loops build exactly `ImageDataList` of the reply |
| VertexAi.ImageDataList | backend/app/services/vertex_ai_service.py:112-161 | (no contract of its own) what the image call returns, as a value; stated by GenerateAdImageWithImagen, ImageListShape, ImageFailureShapes and ImageEntryGenuine |
| VertexAi.ImageListShape | backend/app/services/vertex_ai_service.py:134-151 | with a non-empty image list: exactly n entries, entry i the slot of image i below min(n, len) and the fewer-returned placeholder from there up to n |
| VertexAi.ImageFailureShapes | backend/app/services/vertex_ai_service.py:116-117 | no project identity: one "Error:" string; an exception or no images: n placeholders |
| VertexAi.DataUriNeverError | backend/app/services/vertex_ai_service.py:140 | a genuine data URI starts with `data:image/png;base64,` and never contains "Error:" |
| VertexAi.ErrorTextNotUri | backend/app/services/vertex_ai_service.py:143 | a text that starts with 'E' does not start like a data URI |
| VertexAi.ImageEntryGenuine | backend/app/services/vertex_ai_service.py:134-140 | an entry that starts like a data URI comes from a configured call that returned image i with bytes, and is that image's data URI |
| Prompts.GeminiPrompt | backend/app/services/prompt_service.py:4-26 | (no contract of its own) `get_gemini_prompt`; stated by GeminiOpening, GeminiFixedInstructions, GeminiPersonaClause and GeminiPromptsDifferInPersonaOnly |
| Prompts.GeminiPromptsDifferInPersonaOnly | backend/app/services/prompt_service.py:17-26 | two text prompts that differ only in persona are equal exactly when their persona clauses are |
| Prompts.GeminiOpening | backend/app/services/prompt_service.py:10-12 | the text prompt starts with the opening; then `<n> distinct variations` for n > 1, the singular copy otherwise |
| Prompts.GeminiFixedInstructions | backend/app/services/prompt_service.py:15-25 | the output-only instruction and the tone directive occur; the prompt ends with the paragraph format for n <= 1 and the per-variation format for n > 1 |
| Prompts.GeminiPersonaClause | backend/app/services/prompt_service.py:20 | a truthy persona is named in its clause; None or "" gives the generic line |
| Prompts.ImagePrompt | backend/app/services/prompt_service.py:28-42 | (no contract of its own) `get_imagen_prompt`; stated by ImagePromptIgnoresCount and ImagePromptContents |
| Prompts.ImagePromptIgnoresCount | backend/app/services/prompt_service.py:28-36 | the image prompt does not depend on the count |
| Prompts.ImagePromptContents | backend/app/services/prompt_service.py:29-36 | it opens with the product, has the persona or generic clause and "No text in image.", and ends with the diversity sentence |
| AdModels.ParseRequest | backend/app/models/ad_models.py:5-10 | the persona defaults to None, the count to 1 unless sent as null |
| AdsRouter.TextFailureDetail | backend/app/routers/ads.py:36-40 | the detail loop builds the header followed by the notes of the flagged texts in order |
| AdsRouter.ImageFailureDetail | backend/app/routers/ads.py:59-63 | the detail loop builds the header followed by the notes of the flagged images in order |
| AdsRouter.TextNotesNameFlagged | backend/app/routers/ads.py:38-40 | every flagged text is named with its 1-based index and its content |
| AdsRouter.TextNotesEmpty | backend/app/routers/ads.py:38-40 | the notes are empty exactly when no text is flagged |
| AdsRouter.ImageNotesNameFlagged | backend/app/routers/ads.py:61-63 | every flagged image is named with its 1-based index |
| AdsRouter.PairCreatives | backend/app/routers/ads.py:67-76 | the pairing loop yields the first n text/image pairs, or the mismatch error at the first missing index |
| AdsRouter.PairingAfterChecks | backend/app/routers/ads.py:70-74 | once both lists passed their checks the mismatch branch is unreachable: exactly n creatives, surplus ignored |
| AdsRouter.Rejected | backend/app/routers/ads.py:34 | (no contract of its own) `not xs or len(xs) < n or any(...)`, shared by the text check at :34 and the image check at :58; stated by HandleOkIff, TextsAccepted and ImagesAccepted |
| AdsRouter.Pairing | backend/app/routers/ads.py:66-76 | (no contract of its own) the pairing loop as a value; stated by PairCreatives and PairingAfterChecks |
| AdsRouter.TryBodyWith | backend/app/routers/ads.py:17-76 | (no contract of its own) the body of the `try` with the request's fields read correctly, for a given pair of marker checks; stated by RunPipeline, HandleOkIff, ErrorReplies and the ShippedAsWritten lemmas |
| AdsRouter.Catch | backend/app/routers/ads.py:78-83 | (no contract of its own) the `except` clauses as intended: an HTTP error passes through; stated by HttpErrorsMasked and RangeCheckFirst |
| AdsRouter.HandleWith | backend/app/routers/ads.py:12-83 | (no contract of its own) the handler with the request's fields read correctly, for a given pair of marker checks; stated by ExceptionTextsShippedAsWritten and ExceptionsShippedAsWritten |
| AdsRouter.Handle | backend/app/routers/ads.py:12-83 | (no contract of its own) the corrected handler; stated by GenerateAdContentApi, HandleOkIff, SuccessShape and ErrorReplies |
| AdsRouter.RunPipeline | backend/app/routers/ads.py:18-76 | the body of the `try` with the request's fields read correctly, for a given pair of marker checks, computes `TryBodyWith` with those checks |
| AdsRouter.GenerateAdContentApi | backend/app/routers/ads.py:12-83 | the handler with the corrected marker checks computes `Handle`: the outcome of the `try`, with an HTTP error passed through |
| AdsRouter.DefaultCount | backend/app/routers/ads.py:18 | an explicit null gives 3 variations, an omitted count 1 |
| AdsRouter.RangeCheckFirst | backend/app/routers/ads.py:19-20 | a count outside 1..4 gives 400 with the range message, whatever the models answer |
| AdsRouter.TextExceptionMarked | backend/app/services/vertex_ai_service.py:110 | the text exception placeholder starts with "Error generating ad text" |
| AdsRouter.TextsAccepted | backend/app/routers/ads.py:34 | a text list that passes the check is the model's own text: the stripped reply for n = 1, exactly n parsed items for n > 1 |
| AdsRouter.ImagesAccepted | backend/app/routers/ads.py:58 | an image list that passes the check holds, for each of the n creatives, the data URI of an image returned with bytes |
| AdsRouter.HandleOkIff | backend/app/routers/ads.py:17-76 | the handler succeeds exactly when the count is in range and both lists pass their checks |
| AdsRouter.SuccessShape | backend/app/routers/ads.py:67-76 | on success: n creatives, creative i pairing text i with the data URI of returned image i |
| AdsRouter.ErrorReplies | backend/app/routers/ads.py:20-64 | every failure is the range 400 or a 500 whose detail opens with the text or the image header |
| AdsRouter.ConfigFailureRejected | backend/app/routers/ads.py:34-58 | for every n in 1..4 the missing-configuration text and image are rejected by both checks, as written and as intended |
| AdsRouter.ConfigFailureReply | backend/app/routers/ads.py:34-41 | without a project identity the reply is a 500 naming the configuration placeholder as text 1 |
| AdsRouter.TextFailureNamesEntries | backend/app/routers/ads.py:34-41 | a text failure reply names every flagged text with its 1-based index |
| AdsRouter.TryBodyAsWritten | backend/app/routers/ads.py:17-28 | (no contract of its own) the body of the `try` as it stands: the range check, then the failing `request.customer_type` read; stated by AsWrittenAlwaysInternalError |
| AdsRouter.CatchAsWritten | backend/app/routers/ads.py:78-83 | (no contract of its own) the `except` clauses as they stand; stated by HttpErrorsMasked |
| AdsRouter.HandleAsWritten | backend/app/routers/ads.py:12-83 | (no contract of its own) the handler as it stands; stated by AsWrittenAlwaysInternalError, and its `except` clauses by HttpErrorsMasked |
| AdsRouter.AsWrittenAlwaysInternalError | backend/app/routers/ads.py:17-83 | as written, every request ends in the generic 500 |
| AdsRouter.HttpErrorsMasked | backend/app/routers/ads.py:78-83 | as written, an HTTP error raised in the `try` becomes the generic 500; as intended it is passed through |
| AdsRouter.GeminiPromptAsWritten | backend/app/routers/ads.py:23-28 | (no contract of its own) the prompt call with its arguments shifted; stated by AsWrittenPromptDropsPersona |
| AdsRouter.AsWrittenPromptDropsPersona | backend/app/routers/ads.py:23-28 | as written, the persona never reaches the text prompt and the product description sits in its clause |
| AdsRouter.PromptCarriesPersona | backend/app/services/prompt_service.py:4-26 | as intended, a truthy persona is named in the text prompt and two different personas give different prompts |
| AdsRouter.SextetsOfFailed | backend/app/services/vertex_ai_service.py:139 | the alphabet positions of the letters of "FailedAA" |
| AdsRouter.EncodeEdAA | backend/app/services/vertex_ai_service.py:139 | the bytes 121, 208, 0 encode to "edAA" |
| AdsRouter.FailedBytesEncoding | backend/app/services/vertex_ai_service.py:139 | the bytes 21, 168, 165, 121, 208, 0 encode to "FailedAA" |
| AdsRouter.FailedInsideGenuineUri | backend/app/routers/ads.py:58 | a genuine image whose payload contains "Failed" is rejected as written and accepted as intended |
| AdsRouter.ImageCheckSeparates | backend/app/routers/ads.py:58 | as intended, every data URI passes and every image placeholder fails |
| AdsRouter.TextFlaggedAsWritten | backend/app/routers/ads.py:34 | (no contract of its own) the source's text marker test; stated by ConfigFailureRejected, TextExceptionPassesAsWritten and ExceptionTextsShippedAsWritten |
| AdsRouter.ImageFlaggedAsWritten | backend/app/routers/ads.py:58 | (no contract of its own) the source's image marker test; stated by ConfigFailureRejected, FailedInsideGenuineUri, ImageExceptionPassesAsWritten and GenuineImagesPassAsWritten |
| AdsRouter.TextExceptionPassesAsWritten | backend/app/routers/ads.py:34 | as written, the text exception placeholder passes when its message lacks 'E' and 'S' |
| AdsRouter.ImageExceptionPassesAsWritten | backend/app/routers/ads.py:58 | as written, the image exception placeholder passes when its message lacks 'E' and 'F' |
| AdsRouter.ExceptionPlaceholdersFlagged | backend/app/services/vertex_ai_service.py:108-110 | as intended, both exception placeholders fail their checks for any message |
| AdsRouter.GenuineImagesPassAsWritten | backend/app/routers/ads.py:58 | as written, n returned images with bytes and no "Failed" in their base64 pass the image check as their data URIs |
| AdsRouter.ExceptionTextsShippedAsWritten | backend/app/routers/ads.py:34-76 | with the marker checks of ads.py:34 and :58 and the request's fields read correctly (a defect hidden behind the one at ads.py:23-28), a raising text model and genuine images give a success whose every ad text is the exception placeholder, where the corrected handler answers a 500 |
| AdsRouter.ExceptionsShippedAsWritten | backend/app/routers/ads.py:34-76 | with the marker checks of ads.py:34 and :58 and the request's fields read correctly (a defect hidden behind the one at ads.py:23-28), when both models raise, the success holds n creatives made only of the two exception placeholders |
| PersonaData.ProjectColumns | backend/app/services/bigquery_service.py:37-43 | the keys are exactly those of some row; each key's list is its values in row order |
| PersonaData.AddRow | backend/app/services/bigquery_service.py:39-42 | one row's items join the keys and are appended to their keys' lists |
| PersonaData.RowIntoKeys | backend/app/services/bigquery_service.py:39-42 | the keys after the inner loop: the keys before and the row's column names |
| PersonaData.RowIntoValues | backend/app/services/bigquery_service.py:39-42 | a key's list after the inner loop: its list before, if any, then the row's values under it in item order |
| PersonaData.AbsentKeyNoValues | backend/app/services/bigquery_service.py:39-42 | a row without a key holds no value under it |
| PersonaData.AbsentKeyEmptyColumn | backend/app/services/bigquery_service.py:38-42 | a key in no row has an empty column |
| PersonaData.RowKeysIndex | backend/app/services/bigquery_service.py:39 | a name is a key of a row exactly when some item carries it |
| PersonaData.OneValuePerKey | backend/app/services/bigquery_service.py:39-42 | a row with unique names holds one value under each |
| PersonaData.UniformColumns | backend/app/services/bigquery_service.py:37-43 | rows with the same unique column names give every column one value per row |
| PersonaData.PersonaQuery | backend/app/services/bigquery_service.py:26-30 | (no contract of its own) the query f-string; stated by GetPersonaData |
| PersonaData.GetPersonaData | backend/app/services/bigquery_service.py:16-46 | missing or empty configuration: None and no query; else the query names the table; a failed query: None; rows: the projected columns; zero rows: an empty map, not None |

## Left out

- The Vertex AI SDK, `vertexai.init`, model names and generation settings are left out: they are foreign calls, and their results are inputs.
- Cloud Logging and every `print` are left out: they are side effects with no effect on results.
- The image model's `aspect_ratio` argument is left out: it only reaches the foreign call.
- The warehouse client and query execution are left out: they are I/O. The query text is built, and what it returns is an input. `LIMIT 30` is the warehouse's promise.
- `bigquery.Client()` is created at `backend/app/services/bigquery_service.py:24`, before the `try` at :32, so a failure to create the client is not caught and propagates to the caller. Client creation is not modelled: the client's project is an input and creating it always succeeds.
- PersonaData.ProjectColumns: the result is a map, so the key order of the source's dict is not modelled. That order is the order in which column names are first met, which is the first row's column order and the order of the keys in the JSON the caller receives.
- A failure while iterating the rows is not separated from a failed query: both return None, and a failed query stands for both.
- The translation service is not part of this model: it is a wrapper over a hosted-model call.
- The entry point and the persona router are not part of this model: they are routing plumbing, and the persona router is never mounted.
- The frontend is not part of this model: it is UI code.
- The debug check for Korean characters in the image prompt is left out: it only prints.
- There is no concurrency to model: requests are independent.
- ListParser.MatchAt: `\d` is modelled as the ASCII digits 0-9, not every Unicode decimal digit, so a line numbered with other scripts' digits is not matched.
- Base64.Encode: modelled as the concrete encoder of RFC 4648 section 4 and trusted to be what `base64.b64encode` computes. The handler only relies on its alphabet; the concrete definition also names bytes whose encoding holds "Failed".
- ListParser.ParseListResponse: the model takes the source's two identical last-resort branches (`num_variations == 1` and otherwise) as one.
- Prompts.GeminiOpening: states that the prompt opens with the singular clause for n <= 1. It does not state that "distinct variations" is absent from the prompt, because the product text can itself contain those words.
- The as-written handler is modelled up to the failed `request.customer_type` read and no further, because nothing after it runs; the intended handler models the rest.

## Findings

| source | as written | input that shows it | evidently intended | confidence | as-written member | corrected member |
|---|---|---|---|---|---|---|
| backend/app/routers/ads.py:23-28 | both prompt calls read `request.customer_type`, a field the request schema no longer declares (`backend/app/models/ad_models.py:5-10`); the attribute error is caught at :80 | any request with a count in 1..4, e.g. product "Kettle", description "Steel kettle", count 1 | the prompts are built from the request's own fields and the request proceeds | high, not executed | AdsRouter.AsWrittenAlwaysInternalError | AdsRouter.HandleOkIff |
| backend/app/routers/ads.py:78-83 | `except Exception` catches the handler's own HTTP errors raised at :20, :41, :64 and :74, and answers the generic 500 | a request with count 7: the 400 raised at :20 reaches the client as a 500 | the 400 and the 500 details reach the client unchanged | high, not executed | AdsRouter.HttpErrorsMasked | AdsRouter.RangeCheckFirst |
| backend/app/routers/ads.py:23-28 | the arguments are shifted by one against `get_gemini_prompt(product, product_description, persona_description, …)` (`backend/app/services/prompt_service.py:4`, and likewise :28) | persona "busy parents", product "Kettle", description "Steel kettle": the prompt tailors the copy to the persona "Steel kettle" and never names "busy parents" | the request's product, description and persona fill the three parameters | high, not executed | AdsRouter.AsWrittenPromptDropsPersona | AdsRouter.PromptCarriesPersona |
| backend/app/routers/ads.py:58 | an image is rejected when its data URI contains "Failed", and a genuine base64 payload can contain it | an image whose bytes are 21, 168, 165, 121, 208, 0 encodes to "FailedAA" and is rejected | only placeholders are rejected: anything not starting with `data:image/png;base64,` | high, not executed | AdsRouter.FailedInsideGenuineUri | AdsRouter.ImageCheckSeparates |
| backend/app/routers/ads.py:34 | the text exception placeholder (`backend/app/services/vertex_ai_service.py:110`) contains neither "Error:" nor "Sorry,"; with the request's fields read correctly, a defect hidden behind the one at ads.py:23-28 | count 1, and the text model raises with message "timeout": the placeholder "Error generating ad text for 1 variations: timeout" passes the check and becomes the ad text | the exception placeholders are rejected like the others | high, not executed | AdsRouter.ExceptionTextsShippedAsWritten | AdsRouter.TextsAccepted |
| backend/app/routers/ads.py:58 | the image exception placeholder (`backend/app/services/vertex_ai_service.py:161`) contains neither "Error:" nor "Failed"; with the request's fields read correctly, a defect hidden behind the one at ads.py:23-28 | the image model raises with message "timeout": the placeholder passes the check and becomes image data | the exception placeholders are rejected like the others | high, not executed | AdsRouter.ExceptionsShippedAsWritten | AdsRouter.ImagesAccepted |
