/** The exceptions the simulation-folder helpers can raise, one constructor per cause. */
module Errors {

  datatype Error =
    /** ValueError: the input type is not one of config, mesh, tess, opt. */
    | InvalidInputType
    /** ValueError: the entity is not one of elts, elsets, mesh. */
    | InvalidEntity
    /** IndexError: a line or token the `.sim` scan expects is not there. */
    | IndexOutOfRange
    /** ValueError: `int()` applied to a token that is not an integer literal. */
    | NotAnInteger
    /** IsADirectoryError: the `.sim` path exists but is not a readable file. */
    | NotAFile
    /** NameError: a name the code refers to is not defined in the module. */
    | UndefinedName(name: string)
    /** TypeError: an `int` sort key compared with a `str` sort key. */
    | Unorderable
}
