/** The host framework's description records, reduced to the fields this library fills in. */
module Descriptions {
  import opened Wrappers
  import opened Descriptors
  import Casing

  /** `HttpMethod`: a method name. Two methods are equal when their names match ignoring case. */
  datatype HttpMethod = HttpMethod(name: string)

  const Get := HttpMethod("GET")
  const Post := HttpMethod("POST")

  /** `method == HttpMethod.Get`. */
  predicate IsGet(m: HttpMethod) {
    Casing.EqualsIgnoreCase(m.name, Get.name)
  }

  /** The methods equal to GET are exactly the eight spellings of "get" in upper and lower case. */
  lemma GetSpellings(m: HttpMethod)
    ensures IsGet(m) <==> && |m.name| == 3
                          && m.name[0] in {'g', 'G'} && m.name[1] in {'e', 'E'} && m.name[2] in {'t', 'T'}
  {
    if |m.name| == 3 {
      Casing.UpperCaseOf(m.name[0], 'G');
      Casing.UpperCaseOf(m.name[1], 'E');
      Casing.UpperCaseOf(m.name[2], 'T');
    }
  }

  /** `ApiParameterSource`. */
  datatype ParameterSource = FromUri | FromBody | Unknown

  /** A `MediaTypeFormatter`; formatters are only copied around, never inspected. */
  datatype Formatter = JsonMediaTypeFormatter | MediaTypeFormatter(name: string)

  /** `ResponseDescription`. */
  datatype ResponseDescription = ResponseDescription(declaredType: TypeRef, responseType: TypeRef,
                                                     documentation: Option<string>)

  /** `ApiParameterDescription`. */
  datatype ApiParameterDescription = ApiParameterDescription(documentation: Option<string>, name: string,
                                                             parameterDescriptor: ParameterDescriptor,
                                                             source: ParameterSource)

  /** `ApiDescription`. */
  datatype ApiDescription = ApiDescription(
    httpMethod: HttpMethod,
    relativePath: string,
    documentation: Option<string>,
    actionDescriptor: ActionDescriptor,
    responseDescription: ResponseDescription,
    supportedRequestBodyFormatters: seq<Formatter>,
    parameterDescriptions: seq<ApiParameterDescription>)
}
