/**
 * An abstract JSON document, standing in for the token stream of the
 * streaming reader and writer. An object keeps its members in document
 * order, duplicates included.
 */
module Json {
  import opened Wrappers

  datatype JsonValue =
    | JNull
    | JBool(b: bool)
    | JNumber(n: int)
    | JString(s: string)
    | JArray(items: seq<JsonValue>)
    | JObject(members: seq<Member>)

  /** One `"name": value` pair of an object. */
  type Member = (string, JsonValue)

  /** The ways a streaming read of a document can fail (the reader's exceptions). */
  datatype ReadError =
    | ExpectedObject              // beginObject on a value that is not an object
    | ExpectedArray(name: string) // beginArray on a value that is not an array
    | ExpectedBoolean(name: string)
    | ExpectedNumber(name: string)
    | NumberOutOfRange(name: string) // nextInt on a number outside the 32-bit range
    | ExpectedString(name: string)
    | ExpectedName(after: string)    // a value left unconsumed where the next name was due

  /** The value of the last member called `name`: the one a reader that overwrites keeps. */
  function LastValue(ms: seq<Member>, name: string): (r: Option<JsonValue>)
    ensures r.None? <==> forall i :: 0 <= i < |ms| ==> ms[i].0 != name
    ensures r.Some? ==>
      exists i :: 0 <= i < |ms| && ms[i] == (name, r.value) &&
        forall j :: i < j < |ms| ==> ms[j].0 != name
  {
    if |ms| == 0 then None
    else if ms[|ms| - 1].0 == name then Some(ms[|ms| - 1].1)
    else LastValue(ms[..|ms| - 1], name)
  }
}
