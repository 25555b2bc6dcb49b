/**
 * A decoded JSON document as Python's `json.loads` hands it over (objects are
 * dicts, arrays lists), and the two Python operations the live-reload
 * protocol applies to it: subscripting (`data['command']`) and membership
 * (`x in data['protocols']`), with the exceptions they raise.
 */
module Json {
  import opened Wrappers
  import opened Text

  /** Numbers are kept abstract as integers; object members keep their wire order. */
  datatype Json =
    | JNull
    | JBool(b: bool)
    | JNumber(n: int)
    | JString(s: string)
    | JArray(items: seq<Json>)
    | JObject(members: seq<(string, Json)>)

  /** The Python exceptions the modelled code can raise. */
  datatype PyError = KeyError(key: string) | TypeError | ValueError

  predicate HasKey(members: seq<(string, Json)>, key: string)
  {
    exists i :: 0 <= i < |members| && members[i].0 == key
  }

  /** The value a decoded dict holds for `key`: a repeated key keeps its last value. */
  function Lookup(members: seq<(string, Json)>, key: string): (r: Option<Json>)
    ensures r.None? <==> !HasKey(members, key)
    ensures r.Some? ==> exists i :: (0 <= i < |members| && members[i] == (key, r.value)
      && forall j :: i < j < |members| ==> members[j].0 != key)
  {
    if members == [] then None
    else
      var last := members[|members| - 1];
      if last.0 == key then
        Some(last.1)
      else
        var r := Lookup(members[..|members| - 1], key);
        assert forall i :: 0 <= i < |members| - 1 ==> members[..|members| - 1][i] == members[i];
        r
  }

  /** `data[key]`: only a dict can be subscripted with a string. */
  function Index(data: Json, key: string): (r: Result<Json, PyError>)
    ensures r.Success? <==> data.JObject? && HasKey(data.members, key)
    ensures r.Failure? && data.JObject? ==> r.error == KeyError(key)
    ensures r.Failure? && !data.JObject? ==> r.error == TypeError
    ensures r.Success? ==> Lookup(data.members, key) == Some(r.value)
  {
    if !data.JObject? then Failure(TypeError)
    else match Lookup(data.members, key)
      case None => Failure(KeyError(key))
      case Some(v) => Success(v)
  }

  /** `needle in container`: element of a list, substring of a string, key of a dict. */
  function In(needle: string, container: Json): (r: Result<bool, PyError>)
    ensures r.Failure? <==> container.JNull? || container.JBool? || container.JNumber?
    ensures container.JArray? ==> r == Success(JString(needle) in container.items)
    ensures container.JString? ==> r == Success(Contains(container.s, needle))
    ensures container.JObject? ==> r == Success(HasKey(container.members, needle))
  {
    match container
    case JArray(items) => Success(JString(needle) in items)
    case JString(s) => Success(Contains(s, needle))
    case JObject(members) => Success(HasKey(members, needle))
    case _ => Failure(TypeError)
  }
}
