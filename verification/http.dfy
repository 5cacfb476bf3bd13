/** The tagged responses the views return, in place of rendered JSON payloads. */
module Http {

  /** Why a request was refused; the model's rendering of the `detail` / error payload. */
  datatype Reason =
    | PermissionDenied      // a permission class refused the request
    | VerificationRequired  // the in-body `is_verified` check of a view
    | InvalidPayload        // serializer validation failed
    | NotAvailable          // claim of a donation whose status is not available
    | CannotMarkReceived    // mark_received by someone who does not hold the donation or claim
    | PasswordsDiffer       // the two password fields differ
    | OrganizationRequired  // charity registration without an organization name
    | WrongPassword         // change_password with a wrong old password

  datatype Response =
    | Ok                        // 200
    | Created(id: nat)          // 201, with the id of the new row
    | NoContent                 // 204
    | BadRequest(why: Reason)   // 400
    | Forbidden(why: Reason)    // 403 (also what an unauthenticated caller is refused with)
    | NotFound                  // 404
    | ServerError               // 500, an exception the view does not handle
}
