/**
 * The request and response schema of the ad generation endpoint, with the
 * defaults the schema applies when a field of the JSON body is omitted.
 */
module AdModels {
  import opened Wrappers

  /** A field of the incoming JSON body: left out, sent as `null`, or sent
      with a value. */
  datatype BodyField<T> = Omitted | Null | Given(value: T)

  datatype AdGenerationRequest = AdGenerationRequest(
    product: string,
    productDescription: string,
    personaDescription: Option<string>,
    numberOfVariations: Option<int>)

  datatype AdCreative = AdCreative(adText: string, adImageData: string)

  datatype AdGenerationResponse = AdGenerationResponse(creatives: seq<AdCreative>)

  /** An optional field with a declared default: the default when omitted,
      `None` for an explicit `null`, the value otherwise. */
  function WithDefault<T>(f: BodyField<T>, default: Option<T>): Option<T> {
    match f
    case Omitted => default
    case Null => None
    case Given(v) => Some(v)
  }

  /** Building the request from a body whose two required fields are present:
      the persona defaults to `None`, the variation count to 1. */
  function ParseRequest(product: string, productDescription: string,
                        persona: BodyField<string>, numberOfVariations: BodyField<int>): (r: AdGenerationRequest)
    ensures r.product == product && r.productDescription == productDescription
    ensures persona.Given? ==> r.personaDescription == Some(persona.value)
    ensures !persona.Given? ==> r.personaDescription == None
    ensures numberOfVariations.Omitted? ==> r.numberOfVariations == Some(1)
    ensures numberOfVariations.Null? ==> r.numberOfVariations == None
    ensures numberOfVariations.Given? ==> r.numberOfVariations == Some(numberOfVariations.value)
  {
    AdGenerationRequest(product, productDescription, WithDefault(persona, None), WithDefault(numberOfVariations, Some(1)))
  }
}
