// What a handler sends back: an error message, or a success message with
// the identifier of the record concerned.
module Reply {
  datatype Reply = Failure(message: string) | Success(message: string, identifier: string)
}
