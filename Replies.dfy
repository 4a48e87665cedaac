/** The JSON answers the AJAX actions return. */
module Replies {
  /** An anonymous `{ success, message }` object. */
  datatype JsonReply = JsonReply(success: bool, message: string)

  const UnauthorizedMessage: string := "Unauthorized"
}
