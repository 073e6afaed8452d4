/** Shared vocabulary of the schema model: optional values, the errors the
    schema objects raise, and results that carry either a value or an error. */
module Base {

  datatype Option<+T> = None | Some(value: T)

  /** Where a value was read: line, column and the URL of the resource. */
  datatype Position = Position(line: int, column: int, url: string)

  /** A value the schema objects store and hand back but never inspect:
      datatype converters, key and value types, handler names, registries, URLs. */
  datatype Opaque = Opaque(id: string)

  /** The exceptions raised by the schema objects.  SchemaError reports a defect
      in the schema, ConfigurationError one in a configuration document,
      DataConversionError a raw value its datatype rejected, and ValueError is
      Python's own error for removing an absent element from a list. */
  datatype Error =
    | SchemaError(message: string)
    | ConfigurationError(message: string)
    | DataConversionError(cause: string, value: string, position: Position)
    | ValueError(message: string)

  datatype Result<+T> = Ok(value: T) | Fail(error: Error)

  /** Python's repr of a plain string, as the error messages show it: the
      text between single quotes.  Python itself switches to double quotes
      when the text holds a single quote and no double quote, and escapes
      backslashes and unprintable characters; this model does neither. */
  function Repr(s: string): string {
    "'" + s + "'"
  }
}
