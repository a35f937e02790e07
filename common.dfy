/** Values shared by every module of the model: optional values, validation
    outcomes, primary keys and what a view answers. */
module Common {

  /** A value that may be absent (Python's None). */
  datatype Option<+T> = None | Some(value: T)

  /** A cleaned value, or the error that rejects it. */
  datatype Result<+T, +E> = Ok(value: T) | Err(error: E)

  /** The result of a validation: it passes, or fails with the first error found. */
  datatype Outcome<+E> = Pass | Fail(error: E)

  /** A request parameter that is present and not empty (Python's truth test). */
  predicate Given(p: Option<string>) {
    p.Some? && p.value != []
  }

  /** Primary keys. The database hands them out from 1 upwards. */
  type Id = nat

  /** Seconds in a day. `timedelta.days` is the seconds count floored by this. */
  const SecondsPerDay: int := 86400

  /** What a view does with the request, once its writes (if any) are done.
      Message texts and templates are not modelled, only which kind of answer it is. */
  datatype Reply =
    | ToLogin             // redirect to the login page
    | ToClientDashboard   // redirect to the client dashboard
    | ToStaffDashboard    // redirect to the staff dashboard
    | NotFound            // get_object_or_404 raised a 404
    | Page                // a GET renders the page or form; nothing is written
    | Redirect            // a redirect with no message; nothing was written
    | Success             // the write was done (whatever level its message has)
    | Warning             // warning message; nothing was written
    | Error               // error message; nothing was written
    | FormErrors          // the bound form did not validate; nothing was written
    | ServerError         // an uncaught IntegrityError: a 500; writes already made stay
}
