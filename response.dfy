/** check_response: the shape check on the decoded API answer. */
module Response {
  import opened Json
  import opened Errors

  /** check_response. The answer must be a dict holding a list under
      "homeworks"; that list is returned as it is. Its test whether the key 0 is
      in the dict only writes a log line and has no effect here. */
  function CheckResponse(response: Value): (r: Result<seq<Value>>)
    ensures r.Ok? <==>
      response.Dict? && "homeworks" in response.fields && response.fields["homeworks"].List?
    ensures r.Ok? ==> r.value == response.fields["homeworks"].items
    ensures !response.Dict? ==> r == Err(ResponseNotADict)
    ensures response.Dict? && "homeworks" !in response.fields ==> r == Err(HomeworksMissing)
    ensures response.Dict? && "homeworks" in response.fields && !response.fields["homeworks"].List? ==>
      r == Err(HomeworksNotAList)
  {
    match response
    case Dict(fields) =>
      if "homeworks" !in fields then Err(HomeworksMissing)
      else if !fields["homeworks"].List? then Err(HomeworksNotAList)
      else Ok(fields["homeworks"].items)
    case _ => Err(ResponseNotADict)
  }

  /** Whatever else the answer carries, a list stored under "homeworks" comes back unchanged. */
  lemma CheckResponseReturnsStoredList(fields: map<string, Value>, homeworks: seq<Value>)
    ensures CheckResponse(Dict(fields["homeworks" := List(homeworks)])) == Ok(homeworks)
  {
  }

  /** Conversely, an accepted answer is exactly a dict with that list stored under "homeworks". */
  lemma CheckResponseAcceptsOnlyStoredList(response: Value, homeworks: seq<Value>)
    requires CheckResponse(response) == Ok(homeworks)
    ensures response == Dict(response.fields["homeworks" := List(homeworks)])
  {
  }
}
