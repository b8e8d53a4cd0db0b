/** The shared GraphQL client of `services/pipefy/base_client.py`, reduced to
    what the services can observe: each `execute_query` sends one request
    (a fixed document and a variables dict) and awaits one outcome. */
module GraphQL {
  import opened Values

  /** The static documents of the query catalog, by name. */
  datatype Document =
    | GetPipeQuery
    | GetStartFormFieldsQuery
    | CreateCardMutation
    | CreateCommentMutation
    | UpdateCommentMutation
    | DeleteCommentMutation
    | DeleteCardMutation
    | GetCardQuery
    | GetCardsQuery
    | FindCardsQuery
    | MoveCardToPhaseMutation
    | UpdateCardFieldMutation
    | UpdateCardMutation
    | UpdateFieldsValuesMutation

  datatype Request = Request(document: Document, variables: seq<Entry>)

  /** An exception as the tool layer inspects it: `str(exc)` and
      `getattr(exc, "errors", None)`, with `Null` standing for a missing attribute. */
  datatype Exc = Exc(text: string, errors: Value)

  /** What awaiting an operation gives: the response dict, an exception from the
      endpoint that propagates unchanged, or an exception raised by the service
      code itself (with its message). */
  datatype Outcome =
    | Response(data: Value)
    | Upstream(exc: Exc)
    | LocalError(message: string)

  /** A recorder standing for `gql.Client`: it keeps every request sent, and the
      endpoint decides the outcome of the n-th request. */
  class Client {
    var requests: seq<Request>
    const endpoint: (nat, Request) -> Outcome

    constructor (endpoint: (nat, Request) -> Outcome)
      ensures requests == [] && this.endpoint == endpoint
    {
      requests := [];
      this.endpoint := endpoint;
    }

    /** Exactly one request, `req`, was sent since the previous state, and `r` is the
        endpoint's outcome for it. */
    twostate predicate SentOne(req: Request, r: Outcome)
      reads this
    {
      requests == old(requests) + [req] && r == endpoint(|old(requests)|, req)
    }

    /** `execute_query(document, variables)`: the variables go out unchanged and
        the endpoint's outcome comes back unchanged. */
    method Execute(document: Document, variables: seq<Entry>) returns (r: Outcome)
      modifies this
      ensures SentOne(Request(document, variables), r)
    {
      r := endpoint(|requests|, Request(document, variables));
      requests := requests + [Request(document, variables)];
    }
  }
}
