/** The JSON values a server reply can carry, as the Python client sees them after decoding. */
module Json {

  datatype Value =
    | JInt(i: int)            // a JSON number without fraction (a Python int)
    | JStr(s: string)         // a JSON string
    | JBool(b: bool)          // true / false (a Python bool, a subclass of int)
    | JNull                   // null (Python None)
    | JCompound               // an array or an object
}
