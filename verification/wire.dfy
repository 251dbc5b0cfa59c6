/** The JSON exchanged on `POST /api/chat`. */
module Wire {
  import opened Wrappers
  import opened Transcript

  /** The request body. `history` is None when the field is absent or is
      not an array; `message` is None when it is absent or null. */
  datatype ChatRequest = ChatRequest(history: Option<seq<Turn>>, message: Option<string>)

  datatype ResponseBody = ReplyBody(reply: string) | ErrorBody(error: string)

  datatype ChatResponse = ChatResponse(status: nat, body: ResponseBody)

  /** JavaScript truthiness of a string field: present and non-empty. */
  predicate Truthy(s: Option<string>) {
    s.Some? && s.value != []
  }

  /** `s || fallback` on a string field. */
  function OrElse(s: Option<string>, fallback: string): string {
    if Truthy(s) then s.value else fallback
  }
}
