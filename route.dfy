/**
 * The delete-all route handler of the server (`DELETE /items`), as far as its
 * response goes: it awaits the persistence layer's `deleteAllItems()` and
 * answers 200 `{success: true}` when that resolves, 500
 * `{error: 'Internal Server Error'}` when it throws.
 */
module DeleteAllRoute {
  import opened Json

  const InternalServerError := "Internal Server Error"

  /** How the persistence layer's `deleteAllItems()` ended. */
  datatype GatewayResult = Resolved | Threw

  /** A response body object with the two fields the client may look at. */
  datatype ResponseBody = ResponseBody(success: JsValue, error: JsValue)

  datatype HttpResponse = HttpResponse(status: nat, body: ResponseBody)

  /**
   * The handler's response. `res.json(...)` without a status answers 200.
   * Only a resolved delete yields a body whose `success` is truthy.
   */
  function HandleDeleteAll(g: GatewayResult): (r: HttpResponse)
    ensures r.status == 200 <==> g.Resolved?
    ensures g.Threw? ==> r.status == 500
    ensures Truthy(r.body.success) <==> g.Resolved?
    ensures g.Resolved? ==> r.body == ResponseBody(Bool(true), Undefined)
    ensures g.Threw? ==> r.body == ResponseBody(Undefined, Str(InternalServerError))
  {
    match g
    case Resolved => HttpResponse(200, ResponseBody(Bool(true), Undefined))
    case Threw => HttpResponse(500, ResponseBody(Undefined, Str(InternalServerError)))
  }
}
