/** What an HTTP-triggered function receives and answers. */
module Http {

  /** The response codes the functions produce. InternalServerError is what the host answers
      when a function lets an exception escape. */
  datatype Status = Ok | Created | BadRequest | NotFound | InternalServerError

  /** A body after JsonSerializer.Deserialize: the JSON literal null, an object, or text that
      makes the deserializer throw. */
  datatype Parsed<T> = Null | Value(value: T) | Malformed
}
