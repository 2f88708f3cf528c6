/** JSON values as the program holds them once parsed. */
module JsonValues {
  datatype Json = JNull | JBool(b: bool) | JInt(n: int) | JText(s: string)
                | JList(items: seq<Json>) | JObject(fields: map<string, Json>)
}
