/** Python values as they arrive in records and configuration dictionaries
    (decoded JSON, or values handed over by callers). */
module PyValues {

  /** `VOther` stands for `None`, which every modelled check refuses.
      Booleans and floats are not modelled. */
  datatype Value =
    | VInt(i: int)
    | VStr(s: string)
    | VList(items: seq<Value>)
    | VDict(entries: map<string, Value>)
    | VOther

  /** A Python dictionary with string keys. */
  type Dict = map<string, Value>
}
