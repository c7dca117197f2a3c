/**
 * The request and response shapes of the question-answering service, as the
 * client's HTTP helpers declare them. The HTTP calls themselves are not part of
 * this model: a dispatch is represented by the request it would send and the
 * outcome it resolves to.
 */
module Api {
  import opened Wrappers

  /** `{ product_area?, section? }`: a key is present only when it is set. */
  datatype QueryFilters = QueryFilters(productArea: Option<string>, section: Option<string>)

  /** The body of `POST /api/v1/query`; `filters` may be omitted. */
  datatype QueryRequest = QueryRequest(question: string, filters: Option<QueryFilters>)

  /** One retrieved fragment; the similarity score is a JavaScript number. */
  datatype ContextItem = ContextItem(content: string, section: string, sectionId: string, similarityScore: real)

  /** The answer of `POST /api/v1/query`. */
  datatype QueryResponse = QueryResponse(
    answer: string,
    contextUsed: seq<ContextItem>,
    noContextFound: bool,
    queryId: string,
    sources: seq<string>)

  /** The answer of `GET /api/v1/query/evaluate/{query_id}`; `verdict` is an open string. */
  datatype EvaluationResponse = EvaluationResponse(
    queryId: string,
    question: string,
    answer: string,
    verdict: string,
    confidence: real,
    possibleHallucination: bool,
    reasoning: string)

  /**
   * How a dispatch settles: the parsed response, or the `message` of the error
   * the request promise rejected with.
   */
  datatype DispatchOutcome = Ok(response: QueryResponse) | Err(message: string)
}
