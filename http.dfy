/**
  What the HTTP handlers of the control planes see of a request, and the status
  codes they answer with.
 */
module Http {

  const MethodPost: string := "POST"

  const StatusOK: int := 200
  const StatusBadRequest: int := 400
  const StatusNotFound: int := 404
  const StatusMethodNotAllowed: int := 405
  const StatusInternalServerError: int := 500

  /**
    A request as the handlers read it: its method (`verb`), whether `ParseForm`
    succeeded, and the form value `host` (`Form.Get` gives "" when it is missing).
   */
  datatype Request = Request(verb: string, formParses: bool, host: string)

  /** A POST whose form parsed and names a non-empty host. */
  predicate IsValidHostPost(req: Request) {
    req.verb == MethodPost && req.formParses && req.host != ""
  }
}
