/** tools/create_jira_ticket.py and tools/update_jira_ticket.py: the two result-string builders. */
module JiraTickets {
  import opened Wrappers
  import opened PyText
  import opened StateRecord

  const CreatedPrefix: string := "\U{2705} Created Jira ticket for: "
  const UpdatedPrefix: string := "\U{2705} Updated Jira with: "

  /** `create_jira_ticket(state)`: writes `result` from `state["text"]` (KeyError when absent). */
  function CreateJiraTicket(s: State): (r: Result<State, Failure>)
    ensures r.Err? <==> s.text.None?
    ensures r.Err? ==> r.error == KeyError("text")
    ensures r.Ok? ==> r.value == s.(result := r.value.result) && r.value.result.Some?
    ensures r.Ok? ==> StartsWith(r.value.result.value, CreatedPrefix)
    ensures r.Ok? ==> r.value.result.value[|CreatedPrefix|..] == s.text.value
  {
    if s.text.None? then Err(KeyError("text"))
    else Ok(s.(result := Some(CreatedPrefix + s.text.value)))
  }

  /** `update_jira_ticket(state)`: writes `result` from `state["text"]` (KeyError when absent). */
  function UpdateJiraTicket(s: State): (r: Result<State, Failure>)
    ensures r.Err? <==> s.text.None?
    ensures r.Err? ==> r.error == KeyError("text")
    ensures r.Ok? ==> r.value == s.(result := r.value.result) && r.value.result.Some?
    ensures r.Ok? ==> StartsWith(r.value.result.value, UpdatedPrefix)
    ensures r.Ok? ==> r.value.result.value[|UpdatedPrefix|..] == s.text.value
  {
    if s.text.None? then Err(KeyError("text"))
    else Ok(s.(result := Some(UpdatedPrefix + s.text.value)))
  }

  /** Neither builder looks at anything but `text`: equal texts give equal results. */
  lemma BuildersDependOnTextOnly(s: State, t: State)
    requires s.text.Some? && s.text == t.text
    ensures CreateJiraTicket(s).value.result == CreateJiraTicket(t).value.result
    ensures UpdateJiraTicket(s).value.result == UpdateJiraTicket(t).value.result
  {
  }

  /** A creation reply is never mistaken for an update reply. */
  lemma CreateAndUpdateDiffer(s: State, t: State)
    requires s.text.Some? && t.text.Some?
    ensures CreateJiraTicket(s).value.result != UpdateJiraTicket(t).value.result
  {
    var c := CreateJiraTicket(s).value.result.value;
    var u := UpdateJiraTicket(t).value.result.value;
    assert c[2] == 'C' && u[2] == 'U';
  }
}
