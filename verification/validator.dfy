/** The checks a POST form must pass before a review is created. */
module Validator {
  import opened Wrappers
  import opened Reviews

  datatype ValidationError = MissingField | InvalidLocation

  /** The text of the `error` member of the 400 response. */
  function Message(e: ValidationError): string
  {
    match e
    case MissingField => "ReviewBody and Location are required"
    case InvalidLocation => "Invalid location provided"
  }

  /** The accepted fields of a submission. */
  datatype Submission = Submission(body: string, location: string)

  /** Both fields must be present (their first values are used); then the
      location must be on the allow-list. The missing-field check comes
      first. */
  function Validate(form: Params): (r: Result<Submission, ValidationError>)
    requires WellFormedParams(form)
    ensures r == Failure(MissingField) <==> "ReviewBody" !in form || "Location" !in form
    ensures r == Failure(InvalidLocation) <==>
              "ReviewBody" in form && "Location" in form && !IsAllowed(First(form, "Location"))
    ensures r.Success? ==>
              && r.value.body == First(form, "ReviewBody") && r.value.body != ""
              && r.value.location == First(form, "Location") && IsAllowed(r.value.location)
  {
    if "ReviewBody" !in form || "Location" !in form then Failure(MissingField)
    else
      var body, location := First(form, "ReviewBody"), First(form, "Location");
      if !IsAllowed(location) then Failure(InvalidLocation)
      else Success(Submission(body, location))
  }
}
