/** Optional values and the .NET exceptions the core can raise. A method that can
    throw returns a `Status`; the state it leaves behind on `Threw` is the state the
    C# code leaves when the exception propagates. */
module Outcomes {

  datatype Option<+T> = None | Some(value: T)

  datatype Exception =
    | KeyNotFound          // Dictionary indexer on a missing key
    | IndexOutOfRange      // array indexer out of range
    | ArgumentOutOfRange   // List<T> indexer out of range
    | NullReference        // member access on null
    | DuplicateKey         // the ArgumentException of Dictionary.Add on a key already present
    | ElementNotFound(elementName: string)  // "Element not found: " + name

  datatype Status = Completed | Threw(error: Exception)
}
