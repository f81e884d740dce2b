/**
 * Failure values shared by the whole model.
 *
 * Every exception the framework raises (its own, those of the `antievil`
 * helper library it uses, and the Python built-in ones its code paths can
 * trigger) is one variant of `Error`; operations that can raise return a
 * `Result`, and the `Option` type stands for Python's `X | None`.
 */
module Errors {

  datatype Option<+T> = None | Some(value: T)

  /** Which Python type an `ExpectedTypeError` says was expected. */
  datatype ExpectedKind = ExpectedStr | ExpectedList

  datatype Error =
    // antievil.PleaseDefineError: a required class attribute is None
    | PleaseDefine(attribute: string)
    // antievil.ExpectedTypeError: an attribute or key has the wrong type
    | ExpectedType(expected: ExpectedKind)
    // clyjin.base.errors
    | NoModulesPlugin
    | ForeignModulePlugin
    | DuplicateRootModulePlugin
    // antievil.NotFoundError
    | NotFound(title: string, value: string)
    // antievil.UnsetValueError
    | UnsetValue
    // antievil.CannotBeNoneError
    | CannotBeNone
    // antievil.UnsupportedError
    | Unsupported(title: string, value: string)
    // NotImplementedError
    | NotImplemented
    // TypeError "got multiple values for keyword argument"
    | MultipleValuesForKeyword
    // clyjin.core.cli
    | NoModuleName
    | CannotFindSpec
    // clyjin.modules.api
    | APISpecNotFound
    // IndexError of a sequence subscript
    | IndexOutOfRange
    // ValueError of a tuple unpacking with the wrong number of parts
    | UnpackMismatch
    // ValueError of int() on a string that is not an integer literal
    | InvalidIntLiteral
    // clyjin.util.UnconvertableStringErr
    | UnconvertableString(input: string)
    // clyjin.core.log.UnrecognizedLevel
    | UnrecognizedLevel(level: string)

  datatype Result<+T> = Ok(value: T) | Err(error: Error)

  /** The outcome of a call that returns nothing but may raise. */
  datatype Outcome = Pass | Fail(error: Error)
}
