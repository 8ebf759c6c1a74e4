/** The errors that the server code throws, each with the exact message it carries. */
module Errors {

  datatype Error =
    | InvalidInput          // an input validator rejected the payload
    | Unauthorized          // an admin procedure was called by a non-admin
    | DatabaseNotAvailable  // a mutation found no database connection
    | NoFieldsToUpdate      // updateUser was given nothing to change
    | OpenIdRequired        // upsertUser was given no openId
    | DuplicateEntry        // the store refused a second user with the same openId
    | EmptySetClause        // the store refused an UPDATE whose SET names no column of the table

  function Message(e: Error): string {
    match e
    case InvalidInput => "Invalid input"
    case Unauthorized => "Unauthorized"
    case DatabaseNotAvailable => "Database not available"
    case NoFieldsToUpdate => "No fields to update"
    case OpenIdRequired => "User openId is required for upsert"
    case DuplicateEntry => "Duplicate entry"  // raised by the store, not by the server code
    case EmptySetClause => "SQL syntax error"  // raised by the store, not by the server code
  }
}
