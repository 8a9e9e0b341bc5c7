/** The required-parameter check run on a request's form data before any
    broker operation (`Server::is_formdata_not_valide`). */
module Forms {
  import opened Outcomes

  /** A parsed JSON document. Only whether a field is null matters here. */
  datatype Json =
    | Null
    | Bool(b: bool)
    | Number(n: real)
    | Str(s: string)
    | Array(items: seq<Json>)
    | Object(fields: map<string, Json>)

  /** JSON indexing by key: the field of an object, and null for an absent
      key or for a document that is not an object. */
  function Get(doc: Json, key: string): Json {
    if doc.Object? && key in doc.fields then doc.fields[key] else Null
  }

  /** A parameter counts as missing when indexing yields null, so a field
      present with the value null is missing too. */
  predicate Missing(doc: Json, key: string) {
    Get(doc, key).Null?
  }

  /** The first required parameter, in list order, that the form data lacks;
      none exactly when every required parameter is present. */
  method FirstMissingParam(formdata: Json, required: seq<string>) returns (r: Option<string>)
    ensures r.None? <==> forall p :: p in required ==> !Missing(formdata, p)
    ensures r.Some? ==> exists i :: 0 <= i < |required| && required[i] == r.value
                                    && Missing(formdata, required[i])
                                    && forall j :: 0 <= j < i ==> !Missing(formdata, required[j])
  {
    for i := 0 to |required|
      invariant forall j :: 0 <= j < i ==> !Missing(formdata, required[j])
    {
      if Missing(formdata, required[i]) {
        return Some(required[i]);
      }
    }
    return None;
  }
}
