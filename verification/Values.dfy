/** Dynamically typed values, the `any` of agent inputs, agent outputs and tool data. A nil map
    and an empty map are the same Fields value. */
module Values {
  datatype Value =
    | Null
    | Bool(b: bool)
    | Int(i: int)
    | Str(s: string)
    | Strs(strs: seq<string>)
    | List(items: seq<Value>)
    | Rows(rows: seq<Row>)
    | Obj(row: Row)

  /** A map[string]any inside a value. */
  datatype Row = Row(fields: Fields)

  type Fields = map<string, Value>
}
