/** The record every node reads and writes (state.py), and the exceptions a node can raise. */
module StateRecord {
  import opened Wrappers

  /**
   * The workflow state. Each field is a key of the Python dict; `None` means the
   * key is absent. `result`, `metric_name` and `dates` are written by handlers
   * although the TypedDict does not declare them.
   */
  datatype State = State(
    text: Option<string>,
    intent: Option<string>,
    response: Option<string>,
    fileMetadata: Option<map<string, string>>,
    channelId: Option<string>,
    threadTs: Option<string>,
    result: Option<string>,
    metricName: Option<string>,
    dates: Option<seq<string>>)

  /** The empty dict. */
  const EmptyState: State := State(None, None, None, None, None, None, None, None, None)

  /** A Python exception that leaves a node. */
  datatype Failure =
    | KeyError(key: string)          // `d[key]` on an absent key
    | ValueError(message: string)    // a malformed value, e.g. a date that does not parse
    | ServiceError(message: string)  // any exception raised by an external service

  /** Python truthiness of an optional string: present and non-empty. */
  predicate Truthy(s: Option<string>) {
    s.Some? && s.value != ""
  }
}

/** The intent labels as the code spells them (note the space in "file summary"). */
module Intents {
  const CreateJiraTicket: string := "create_jira_ticket"
  const UpdateJiraTicket: string := "update_jira_ticket"
  const SummarizeThread: string := "summarize_thread"
  const FileSummary: string := "file summary"
  const Publish: string := "publish"
  const Lookup: string := "lookup"
  const Unknown: string := "unknown"

  /** The six labels the keyword classifier can emit. */
  const KeywordLabels: set<string> :=
    {CreateJiraTicket, UpdateJiraTicket, SummarizeThread, FileSummary, Publish, Lookup}
}
