/** The status catalog (HOMEWORK_STATUSES) and parse_status, which turns one
    homework entry into the notification text. */
module Catalog {
  import opened Json
  import opened Errors

  /** Review status code to the verdict shown to the student. */
  const Statuses: map<string, string> := map[
    "approved" := "Работа проверена: ревьюеру всё понравилось. Ура!",
    "reviewing" := "Работа взята на проверку ревьюером.",
    "rejected" := "Работа проверена: у ревьюера есть замечания."
  ]

  /** The text before the homework name, and the text between it and the verdict. */
  const Lead: string := "Изменился статус проверки работы \""
  const Separator: string := "\". "

  /** The notification for a homework whose name prints as `name`. */
  function Message(name: string, verdict: string): string
  {
    Lead + name + Separator + verdict
  }

  predicate IsKnownStatus(status: Value)
  {
    status.Str? && status.s in Statuses
  }

  /** parse_status. An entry that is not a dict has no .get. A missing
      homework_name is read as None and printed as such: the check on it never
      fires. A status outside the catalog is an error: an unhashable one fails
      the membership test, any other one the lookup that follows it. */
  function ParseStatus(homework: Value): (r: Result<string>)
    ensures r.Ok? <==> homework.Dict? && IsKnownStatus(Get(homework.fields, "status"))
    ensures r.Ok? ==> r.value == Message(Render(Get(homework.fields, "homework_name")),
                                         Statuses[Get(homework.fields, "status").s])
    ensures !homework.Dict? ==> r == Err(HomeworkNotADict)
    ensures homework.Dict? && !IsKnownStatus(Get(homework.fields, "status")) ==>
      r == Err(if Hashable(Get(homework.fields, "status"))
               then UnknownStatus(Get(homework.fields, "status"))
               else UnhashableStatus)
  {
    match homework
    case Dict(fields) =>
      var name := Get(fields, "homework_name");
      var status := Get(fields, "status");
      if !Hashable(status) then Err(UnhashableStatus)
      else if status.Str? && status.s in Statuses then Ok(Message(Render(name), Statuses[status.s]))
      else Err(UnknownStatus(status))
    case _ => Err(HomeworkNotADict)
  }

  predicate StartsWith(m: string, prefix: string)
  {
    |prefix| <= |m| && m[..|prefix|] == prefix
  }

  predicate EndsWith(m: string, suffix: string)
  {
    |suffix| <= |m| && m[|m| - |suffix|..] == suffix
  }

  /** What a notification says: the printed name and the status code. */
  datatype Notice = Notice(name: string, status: string)

  /** The status whose verdict ends the text, if any. */
  function StatusOfEnding(m: string): Option<string>
  {
    if EndsWith(m, Statuses["approved"]) then Some("approved")
    else if EndsWith(m, Statuses["reviewing"]) then Some("reviewing")
    else if EndsWith(m, Statuses["rejected"]) then Some("rejected")
    else None
  }

  /** Reads a notification back into the name and status it was made from. */
  function DecodeMessage(m: string): Option<Notice>
  {
    if !StartsWith(m, Lead) then None
    else match StatusOfEnding(m)
      case None => None
      case Some(status) =>
        var verdict := Statuses[status];
        if |m| < |Lead| + |Separator| + |verdict| then None
        else
          var cut := |m| - |verdict| - |Separator|;
          if m[cut..|m| - |verdict|] != Separator then None
          else Some(Notice(m[|Lead|..cut], status))
  }

  /** No verdict ends with another one, so at most one verdict ends a text. */
  lemma VerdictEndingUnique(m: string, s: string, t: string)
    requires s in Statuses && t in Statuses
    requires EndsWith(m, Statuses[s]) && EndsWith(m, Statuses[t])
    ensures s == t
  {
    var u, v := Statuses[s], Statuses[t];
    assert m[|m| - 1] == u[|u| - 1] && m[|m| - 2] == u[|u| - 2] by {
      assert m[|m| - |u|..][|u| - 1] == u[|u| - 1];
      assert m[|m| - |u|..][|u| - 2] == u[|u| - 2];
    }
    assert m[|m| - 1] == v[|v| - 1] && m[|m| - 2] == v[|v| - 2] by {
      assert m[|m| - |v|..][|v| - 1] == v[|v| - 1];
      assert m[|m| - |v|..][|v| - 2] == v[|v| - 2];
    }
  }

  /** Every notification can be read back: DecodeMessage inverts Message. */
  lemma DecodeMessageInvertsMessage(name: string, status: string)
    requires status in Statuses
    ensures DecodeMessage(Message(name, Statuses[status])) == Some(Notice(name, status))
  {
    var verdict := Statuses[status];
    var m := Message(name, verdict);
    assert m == Lead + name + Separator + verdict;
    assert m[..|Lead|] == Lead;
    assert m[|m| - |verdict|..] == verdict;
    assert StatusOfEnding(m) == Some(status) by {
      forall t | t in Statuses && EndsWith(m, Statuses[t])
        ensures t == status
      {
        VerdictEndingUnique(m, t, status);
      }
    }
    var cut := |m| - |verdict| - |Separator|;
    assert cut == |Lead| + |name|;
    assert m[cut..|m| - |verdict|] == Separator;
    assert m[|Lead|..cut] == name;
  }

  /** Only notifications decode: whatever DecodeMessage accepts is the
      notification of the name and status it returns. */
  lemma DecodeMessageOnlyMessages(m: string, n: Notice)
    requires DecodeMessage(m) == Some(n)
    ensures n.status in Statuses && m == Message(n.name, Statuses[n.status])
  {
    assert StartsWith(m, Lead) && StatusOfEnding(m) == Some(n.status);
    assert n.status in Statuses;
    var verdict := Statuses[n.status];
    assert EndsWith(m, verdict);
    var cut := |m| - |verdict| - |Separator|;
  }

  /** For one homework name, the three statuses give three different notifications. */
  lemma MessagesDistinguishStatuses(name: string, s: string, t: string)
    requires s in Statuses && t in Statuses && s != t
    ensures Message(name, Statuses[s]) != Message(name, Statuses[t])
  {
  }

  /** A known status with no homework_name still gives a notification, naming None. */
  lemma MissingNameReadsNone(fields: map<string, Value>)
    requires "homework_name" !in fields
    requires "status" in fields && IsKnownStatus(fields["status"])
    ensures ParseStatus(Dict(fields)) == Ok(Message("None", Statuses[fields["status"].s]))
  {
  }
}
