/** The part of net/http the handlers use: requests, form fields, status codes. */
module Http {

  const MethodPost := "POST"

  const StatusOK := 200
  const StatusCreated := 201
  const StatusBadRequest := 400
  const StatusMethodNotAllowed := 405
  const StatusInternalServerError := 500

  /** An inbound request: its method, its URL path and its decoded form fields. */
  datatype Request = Request(verb: string, path: string, form: map<string, string>)

  /** `r.FormValue(key)`: the field's value, or "" when the field is absent. */
  function FormValue(form: map<string, string>, key: string): string
  {
    if key in form then form[key] else ""
  }
}
