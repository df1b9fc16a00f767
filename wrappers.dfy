/** Failure-carrying datatypes shared by every module, and the exception
    taxonomy of the dialogue system.  Every exception the C# code throws is
    one constructor of `Error`; an operation that may throw returns a
    `Result`. */
module Wrappers {

  /** A value that may be absent: the model of a C# reference that may be null. */
  datatype Maybe<+T> = None | Some(value: T)

  /** Why a dialogue script was rejected (DialogueParseException). */
  datatype ParseFailure =
    | NullInput
    | MixedIndentation
    | UnevenIndentation
    | NodeIdContainsCommand
    | GapInLayers
    | LayerNotPresent
    | IdsMustFollowLine
    | UnclosedId
    | UnopenedId
    | LineNotConnected

  /** Why a function call text `name(a, b)` was rejected (ExecLineException). */
  datatype ExecFailure =
    | UnexpectedEscape
    | UnknownEscapeInCall
    | OpenedTwice
    | UnopenedFunction
    | UnexpectedDelimiter

  /** Why a `$id(text)` formatted string was rejected (FormatParseException). */
  datatype FormatFailure =
    | IdMustBeginWithDollar
    | IdMustBeFollowedByOpen
    | IdNotOneWord
    | TextMustBeClosed
    | UnfinishedId

  /** Why an argument was refused (ArgumentException). */
  datatype ArgumentFailure =
    | DuplicateKey
    | NodeDoesNotExist
    | UnknownOption
    | DuplicateFunction
    | NoSuchFunction
    | LineTypeMismatch
    | UnknownLineId
    | StartAfterEnd

  datatype Error =
    | ArgumentNull
    | Argument(argument: ArgumentFailure)
    | ArgumentOutOfRange
    | KeyNotFound
    | UnknownEscape
    | DialogueParse(parse: ParseFailure)
    | ExecLine(exec: ExecFailure)
    | FormatParse(format: FormatFailure)
    | NodeNotFound(node: string)
    | SequenceNotConfigured

  datatype Result<+T> = Ok(value: T) | Err(error: Error)
}
