/** The exceptions the parser lets escape to its caller, one constructor per cause. */
module Errors {

  datatype ParseError =
    /** `KeyError`: an element of the decoded tree lacks an attribute or child the parser indexes. */
    | MissingKey(key: string)
    /** `KeyError` from `TYPE_MAP` or `SOURCE_MAP`: a code the table does not list. */
    | UnknownCode(table: string, code: string)
    /** `TypeError` or `AttributeError`: a key looked up, or `items()` called, on an element of the
        wrong shape (`None`, a string or a list); the key or method is named. */
    | WrongShape(key: string)
    /** `ValueError` from `strptime`: a validity timestamp not in the expected format. */
    | BadFormat(text: string)
    /** `ValueError` from `datetime(1900, 2, 29)`: a leap day as reference date. */
    | NoLeapDay
}
