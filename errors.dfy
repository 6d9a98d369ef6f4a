/** The exceptions the BBCode processor raises, as values. */
module Errors {

  datatype Error =
    | ImproperlyConfigured(reason: string)
    | ValueError(reason: string)
    | TypeError
    | AttributeError
    | KeyError(key: string)
    | IndexError
    | NotImplemented
      /** `InvalidBBCodePlaholder`: a placeholder type that no registered placeholder handles. */
    | InvalidPlaceholder(placeholderType: string)
      /** A `str.format` replacement field using conversion, format spec, attribute or index syntax. */
    | FormatUnsupported(field: string)
    | ValidationError(reason: string)
    | TagAlreadyRegistered(name: string)
    | TagAlreadyCreated(name: string)
    | TagNotRegistered(name: string)
    | PlaceholderAlreadyRegistered(name: string)
    | PlaceholderNotRegistered(name: string)
}
