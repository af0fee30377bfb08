/** The exceptions the report pipeline can raise or rethrow. */
module Exceptions {

  datatype Exception =
    /** ArgumentNullException, carrying the name of the null parameter */
    | ArgumentNullException(paramName: string)
    /** ArgumentException, carrying its message */
    | ArgumentException(message: string)
    /** ArgumentOutOfRangeException from `new DateTime(year, month, 1)` */
    | ArgumentOutOfRangeException
    /** Whatever the database layer throws; the model does not look inside it */
    | DataAccessException(message: string)
}
