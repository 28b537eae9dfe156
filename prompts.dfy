/**
 * The two prompt builders: single string templates with a persona clause that
 * depends on the truthiness of the optional persona, and (for the text
 * prompt) an opening and a format clause that depend on the variation count.
 */
module Prompts {
  import opened Wrappers
  import opened PyStr

  const Opening := "You are an expert marketing copywriter. Generate "

  const MarkdownFormatInstruction :=
    "Format the output as markdown. It should include a compelling title (H2 level, e.g., '## Title') "
    + "followed by 4-5 paragraphs of detailed and engaging content. Make the copy attractive and persuasive to encourage purchase."

  const VariationFormatInstruction :=
    "Format each variation as markdown, including a compelling title (H2 level, e.g., ## Title) followed by 4-5 sentences "
    + "of detailed and engaging content. Make the copy attractive and persuasive to encourage purchase."

  const OutputOnlyInstruction :=
    "Provide only the advertisement copy, without any introductory phrases, explanations, or numbering for the variations. "
    + "Each variation should start directly with its content."

  const ToneDirective := "Tone: Persuasive, engaging, and aligned with the product and persona. "

  const GenericAppeal := "The ad should be generally appealing. "

  const CountedIntro := " distinct variations of a compelling advertisement copy"
  const SingleIntro := "a compelling advertisement copy"
  const ForOurProduct := "for our product: '"
  const FocusSentence := "Focus on highlighting benefits and encouraging engagement. "
  const UniqueSentence := "Ensure each variation is unique if multiple are requested. "

  /** The opening sentence, with the count only when several are asked for. */
  function GeminiIntro(n: int): string {
    if n > 1 then Opening + IntToDecimal(n) + CountedIntro else Opening + SingleIntro
  }

  /** The persona clause: the persona when it is truthy, a generic line otherwise. */
  function PersonaSentence(persona: Option<string>): string {
    if Truthy(persona) then "Tailor the message for the following Target Persona: " + persona.value + ". "
    else GenericAppeal
  }

  function FormatInstruction(n: int): string {
    if n <= 1 then MarkdownFormatInstruction else VariationFormatInstruction
  }

  /** The part of the text prompt before the persona clause. */
  function GeminiHead(product: string, productDescription: string, n: int): string {
    GeminiIntro(n) + " " + ForOurProduct + product + "' (Description: '" + productDescription + "'). "
  }

  /** The part of the text prompt after the persona clause. */
  function GeminiTail(n: int): string {
    FocusSentence + UniqueSentence + OutputOnlyInstruction + " " + ToneDirective + FormatInstruction(n)
  }

  /** `get_gemini_prompt(product, product_description, persona_description, number_of_variations)`:
      the f-string, cut around the persona clause. */
  function GeminiPrompt(product: string, productDescription: string, persona: Option<string>, n: int): string {
    GeminiHead(product, productDescription, n) + PersonaSentence(persona) + GeminiTail(n)
  }

  /** Persona isolation: two text prompts that differ only in persona are
      equal exactly when their persona clauses are. */
  lemma GeminiPromptsDifferInPersonaOnly(product: string, productDescription: string,
                                         p1: Option<string>, p2: Option<string>, n: int)
    ensures GeminiPrompt(product, productDescription, p1, n) == GeminiPrompt(product, productDescription, p2, n)
            <==> PersonaSentence(p1) == PersonaSentence(p2)
  {
    MiddleCancel(GeminiHead(product, productDescription, n), PersonaSentence(p1), PersonaSentence(p2), GeminiTail(n));
  }

  /** Opening and count clause: the prompt starts with the opening, then the
      decimal count for several variations and the singular article otherwise. */
  lemma GeminiOpening(product: string, productDescription: string, persona: Option<string>, n: int)
    ensures StartsWith(GeminiPrompt(product, productDescription, persona, n), Opening)
    ensures n > 1 ==>
              StartsWith(GeminiPrompt(product, productDescription, persona, n),
                         Opening + IntToDecimal(n) + CountedIntro + " " + ForOurProduct)
    ensures n <= 1 ==>
              StartsWith(GeminiPrompt(product, productDescription, persona, n),
                         Opening + SingleIntro + " " + ForOurProduct)
  {
    var intro := GeminiIntro(n);
    var lead := intro + " " + ForOurProduct;
    StartsWithSelf(lead);
    StartsWithExtend(lead, lead, product);
    StartsWithExtend(lead + product, lead, "' (Description: '");
    StartsWithExtend(lead + product + "' (Description: '", lead, productDescription);
    StartsWithExtend(lead + product + "' (Description: '" + productDescription, lead, "'). ");
    var head := GeminiHead(product, productDescription, n);
    StartsWithExtend(head, lead, PersonaSentence(persona));
    StartsWithExtend(head + PersonaSentence(persona), lead, GeminiTail(n));
    if n > 1 {
      StartsWithPlus(Opening, IntToDecimal(n));
      StartsWithExtend(Opening + IntToDecimal(n), Opening, CountedIntro);
    } else {
      StartsWithPlus(Opening, SingleIntro);
    }
    StartsWithExtend(intro, Opening, " ");
    StartsWithExtend(intro + " ", Opening, ForOurProduct);
    StartsWithTrans(GeminiPrompt(product, productDescription, persona, n), lead, Opening);
  }

  /** Fixed instructions: the output-only instruction and the tone directive
      always occur, and the prompt ends with the count-dependent format clause. */
  lemma GeminiFixedInstructions(product: string, productDescription: string, persona: Option<string>, n: int)
    ensures Contains(GeminiPrompt(product, productDescription, persona, n), OutputOnlyInstruction)
    ensures Contains(GeminiPrompt(product, productDescription, persona, n), ToneDirective)
    ensures n <= 1 ==> EndsWith(GeminiPrompt(product, productDescription, persona, n), MarkdownFormatInstruction)
    ensures n > 1 ==> EndsWith(GeminiPrompt(product, productDescription, persona, n), VariationFormatInstruction)
  {
    var front := GeminiHead(product, productDescription, n) + PersonaSentence(persona);
    var fe := FocusSentence + UniqueSentence;
    ContainsSuffix(fe, OutputOnlyInstruction);
    ContainsBefore(fe + OutputOnlyInstruction, " ", OutputOnlyInstruction);
    ContainsBefore(fe + OutputOnlyInstruction + " ", ToneDirective, OutputOnlyInstruction);
    ContainsBefore(fe + OutputOnlyInstruction + " " + ToneDirective, FormatInstruction(n), OutputOnlyInstruction);
    ContainsAfter(front, GeminiTail(n), OutputOnlyInstruction);
    ContainsSuffix(fe + OutputOnlyInstruction + " ", ToneDirective);
    ContainsBefore(fe + OutputOnlyInstruction + " " + ToneDirective, FormatInstruction(n), ToneDirective);
    ContainsAfter(front, GeminiTail(n), ToneDirective);
    EndsWithPlus(fe + OutputOnlyInstruction + " " + ToneDirective, FormatInstruction(n));
    EndsWithPrepend(front, GeminiTail(n), FormatInstruction(n));
  }

  /** Persona clause: a truthy persona is named in the prompt; None or "" gives
      the generic line. */
  lemma GeminiPersonaClause(product: string, productDescription: string, persona: Option<string>, n: int)
    ensures Truthy(persona) ==>
              Contains(GeminiPrompt(product, productDescription, persona, n),
                       "Tailor the message for the following Target Persona: " + persona.value + ". ")
    ensures !Truthy(persona) ==> Contains(GeminiPrompt(product, productDescription, persona, n), GenericAppeal)
  {
    ContainsMiddle(GeminiHead(product, productDescription, n), PersonaSentence(persona), GeminiTail(n));
  }

  // ----- image prompt -----

  const ImageOpening := "Generate a high-quality advertisement image for the product: '"
  const ShowcaseSentence := "The image should showcase the product's best features or the positive experience it offers. "
  const StyleSentence := "Style: Clean, modern, visually appealing. "
  const NoTextInImage := "No text in image."
  const DiversitySentence := "If generating multiple variations, ensure diversity in composition and perspective."
  const GenericImageAppeal := "The image should be generally appealing and highlight the product effectively. "

  function ImagePersonaSentence(persona: Option<string>): string {
    if Truthy(persona) then "The image should visually resonate with the following persona: " + persona.value + ". "
    else GenericImageAppeal
  }

  function ImageHead(product: string, productDescription: string): string {
    ImageOpening + product + "' " + "(Description: '" + productDescription + "'). "
  }

  function ImageTail(): string {
    ShowcaseSentence + StyleSentence + NoTextInImage + " " + DiversitySentence
  }

  /** `get_imagen_prompt(product, product_description, persona_description, number_of_variations)`:
      the f-string, cut around the persona clause; the count parameter is
      accepted and never read. */
  function ImagePrompt(product: string, productDescription: string, persona: Option<string>, n: int): string {
    ImageHead(product, productDescription) + ImagePersonaSentence(persona) + ImageTail()
  }

  /** The image prompt does not depend on the variation count. */
  lemma ImagePromptIgnoresCount(product: string, productDescription: string, persona: Option<string>, n1: int, n2: int)
    ensures ImagePrompt(product, productDescription, persona, n1) == ImagePrompt(product, productDescription, persona, n2)
  {
  }

  /** Image prompt contents: its opening, the persona or generic clause, the
      no-text instruction and the closing diversity sentence. */
  lemma ImagePromptContents(product: string, productDescription: string, persona: Option<string>, n: int)
    ensures StartsWith(ImagePrompt(product, productDescription, persona, n), ImageOpening + product)
    ensures Truthy(persona) ==>
              Contains(ImagePrompt(product, productDescription, persona, n),
                       "The image should visually resonate with the following persona: " + persona.value + ". ")
    ensures !Truthy(persona) ==> Contains(ImagePrompt(product, productDescription, persona, n), GenericImageAppeal)
    ensures Contains(ImagePrompt(product, productDescription, persona, n), NoTextInImage)
    ensures EndsWith(ImagePrompt(product, productDescription, persona, n), DiversitySentence)
  {
    var lead := ImageOpening + product;
    var front := ImageHead(product, productDescription) + ImagePersonaSentence(persona);
    StartsWithPlus(lead, "' ");
    StartsWithExtend(lead + "' ", lead, "(Description: '");
    StartsWithExtend(lead + "' " + "(Description: '", lead, productDescription);
    StartsWithExtend(lead + "' " + "(Description: '" + productDescription, lead, "'). ");
    StartsWithExtend(ImageHead(product, productDescription), lead, ImagePersonaSentence(persona));
    StartsWithExtend(front, lead, ImageTail());
    ContainsMiddle(ImageHead(product, productDescription), ImagePersonaSentence(persona), ImageTail());
    var ss := ShowcaseSentence + StyleSentence;
    ContainsSuffix(ss, NoTextInImage);
    ContainsBefore(ss + NoTextInImage, " ", NoTextInImage);
    ContainsBefore(ss + NoTextInImage + " ", DiversitySentence, NoTextInImage);
    ContainsAfter(front, ImageTail(), NoTextInImage);
    EndsWithPlus(ss + NoTextInImage + " ", DiversitySentence);
    EndsWithPrepend(front, ImageTail(), DiversitySentence);
  }
}
