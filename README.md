# dobby-ai-slack-agent core, modelled in Dafny

This project models the decision logic of a Slack chat bot that classifies a
message's intent and hands it to a small handler. All the logic works on one
state record, a Python dict with optional keys; here it is the `State`
datatype, with `None` for an absent key. The project models:

- **Intent pipeline.** It covers three things:
  - the keyword classifier `classify`;
  - the model-based classifier node `classify_node`, with the language model and the channel-context loader as oracles;
  - the router `route_based_on_intent` and the graphs built in `graph/workflow.py` and `graph/classifier_graph.py`, as constant tables.
- **Dispatcher and handlers.** These are:
  - `handle_intent`;
  - the two Jira result builders;
  - `summarize_thread`, over a Slack client class and a chat-model class that record every call;
  - the metric `lookup_node`, with its lookup tool as an oracle.
- **Slack ingestion filter.** It is `SlackListenerNode`, a class whose dedup set is one `SeenKeys` object shared by every listener. That set is Python's mutable default argument. The model covers the guard chain (bot message, allow-list, duplicate), mention stripping, the choice of thread timestamp, and the rule that a reply goes out only for a truthy `response`. `nodes/slack_listener.py` and `slack_listener/listener.py` are the same file byte for byte, and this one model serves both.
- **Tabular metric logic.** This covers:
  - `OneAChartsLookup.get_metric`, a loop that fills an insertion-ordered dict;
  - `plot_metric`'s re-parse, filter, sort, empty check and file name;
  - `OneAChartsPublisher.publish_dashboard`'s previous month, month windows, last value per metric, dashboard rows, file name, and S3 bucket and key.
  - Dates are `(day, month, year)`, and `pd.to_datetime(..., format="%d/%m/%y")` is a partial parse that also knows the NaT texts and, through the clock, "now" and "today".

Where the documented design and the code differ, the model follows the code:

- The label set is the one the code uses: `create_jira_ticket`, `update_jira_ticket`, `summarize_thread`, `"file summary"` (with a space), `publish`, `lookup` and `unknown`. The documented set is `create_ticket`, `update_ticket`, `file_summary` and `plot`, and there is no plot route.
- Labels returned by the model are not checked against that set (`LlmClassifier.IntentIsNotValidated`).
- `graph/workflow.py` routes ticket creation, ticket update and `"file summary"` to the string `"end"`. That string is not a registered node (`Workflow.EndIsNotRegistered`).
- `graph/classifier_graph.py` leaves `"unknown"` with no outgoing edge (`ClassifierGraph.UnknownIsStuck`).
- The handlers write `result`, but the listener replies only when the workflow's `response` is truthy. The documented behaviour is that handlers never raise, but `summarize_thread` lets a failing model call escape. The model returns that as an error.
- `graph/classifier_graph.py` passes `condition=` to `add_edge`. The model reads each such call as the conditional edge it declares.

## Model

| member | source | states |
|---|---|---|
| Classify.KeywordIntent | nodes/classify.py:7-18 | the if/elif chain always picks one of the six keyword labels |
| Classify.Classify | nodes/classify.py:4-20 | KeyError("text") exactly when `text` is absent; otherwise only `intent` changes, and it is one of the six keyword labels |
| Classify.KeywordPriority | nodes/classify.py:7-18 | each label is chosen if and only if its own test holds and every earlier test fails: create > update > summarize > file summary > publish > lookup |
| Classify.UpdateTestSubsumed | nodes/classify.py:9 | the "update an-" test accepts nothing that "update " does not |
| Classify.ClassifyIgnoresCase | nodes/classify.py:5 | lower-casing the text first does not change the label |
| Classify.ClassifyIdempotent | nodes/classify.py:4-20 | classifying a classified state changes nothing |
| Classify.ClassifyNeverUnknown | nodes/classify.py:17-18 | the keyword classifier never says "unknown" |
| Classify.CreateBeatsPublish | nodes/classify.py:7-16 | a text asking to create a ticket and to publish is a create request |
| Workflow.RouteBasedOnIntent | graph/workflow.py:12-22 | the router returns one of summarize_thread, lookup, publish or "end"; it returns the intent itself exactly for the three handled labels, and "end" otherwise, including when the intent is missing |
| Workflow.RouteTargetsAreFinishPoints | graph/workflow.py:28-42 | every target other than "end" is a registered node and a finish point, and is not the entry |
| Workflow.EndIsNotRegistered | graph/workflow.py:22-31 | the fallback "end" is not one of the registered nodes |
| Workflow.Visit | graph/workflow.py:12-37 | a run visits the entry "classify" first, the router's source, then the target the router picks for the classified state; it fails only when `text` is absent |
| Workflow.KeywordLabelsRouting | graph/workflow.py:12-22 | of the keyword labels, exactly create, update and "file summary" fall through to "end" |
| Workflow.FallbackRoutes | graph/workflow.py:14-22 | a missing intent and "unknown" route to "end" |
| ClassifierGraph.Holds | graph/classifier_graph.py:17-24 | unconditional edges always hold; a label test on a state without `intent` raises KeyError |
| ClassifierGraph.ClassifyConditionsExclusive | graph/classifier_graph.py:17-20 | no two conditions out of "classify" hold together |
| ClassifierGraph.ClassifySuccessors | graph/classifier_graph.py:17-20 | the three ticket and summary labels lead to their own node; lookup, "file summary" and publish lead to END; any other label leads nowhere |
| ClassifierGraph.UnknownIsStuck | graph/classifier_graph.py:17-20 | "unknown" satisfies no outgoing condition |
| ClassifierGraph.RunsAreShort | graph/classifier_graph.py:22-24 | after classify comes END or a handler whose only successor is END, and END has no successor |
| ClassifierGraph.ClassifiedStateHasOneStep | graph/classifier_graph.py:17-20 | every label the keyword classifier emits has exactly one successor |
| Routers.Dispatch | tools/routers.py:12-21 | exactly one branch by exact string equality: each of the three handled labels delegates, lookup, "file summary" and publish get the not-implemented reply, and every other string gets "Unknown intent" |
| Routers.NotImplementedIsNotUnknown | tools/routers.py:19-21 | the two fixed replies always differ |
| Routers.NotImplementedQuotesIntent | tools/routers.py:19 | the not-implemented reply holds the intent verbatim after its fixed opening |
| Routers.KeywordLabelsNeverUnknown | tools/routers.py:18-21 | no label of the keyword classifier reaches "Unknown intent" |
| Routers.UnknownLabelIsUnknownIntent | tools/routers.py:20-21 | the model classifier's "unknown" reaches "Unknown intent" |
| Routers.HandleIntent | tools/routers.py:6-23 | KeyError("intent") when absent; create and update return the builders' states; summarize carries out the summary's posts and requests; the other branches write one fixed `result` and touch neither service |
| JiraTickets.CreateJiraTicket | tools/create_jira_ticket.py:4-6 | KeyError("text") exactly when `text` is absent; otherwise only `result` changes, and it is the fixed prefix followed by the text |
| JiraTickets.UpdateJiraTicket | tools/update_jira_ticket.py:4-6 | KeyError("text") exactly when `text` is absent; otherwise only `result` changes, and it is the fixed prefix followed by the text |
| JiraTickets.BuildersDependOnTextOnly | tools/create_jira_ticket.py:5 | equal texts give equal results, whatever else the states hold |
| JiraTickets.CreateAndUpdateDiffer | tools/update_jira_ticket.py:5 | a creation reply never equals an update reply |
| LlmClassifier.ReplyIntent | nodes/classify_node.py:65-67 | the "intent" value of a parsed reply; "unknown" when the key is missing or the call failed |
| LlmClassifier.ClassifyNode | nodes/classify_node.py:17-71 | blank text gives "unknown" with no context load and no request; context is loaded exactly for a truthy channel; the call raises exactly when that load fails; one request with the system prompt around the loaded context ("" without a channel) and "Text: " + stripped text; only `intent` is written, from the reply |
| LlmClassifier.Ask | nodes/classify_node.py:37-70 | one request with the system prompt around the context, and `intent` set from its reply |
| LlmClassifier.IntentIsNotValidated | nodes/classify_node.py:65-70 | whatever string the model returns becomes the intent |
| LlmClassifier.ModelFailureIsUnknown | nodes/classify_node.py:55-68 | a failing model call yields "unknown" and nothing escapes |
| ThreadSummary.ThreadTexts | tools/summarize_thread.py:27 | at most one text per message |
| ThreadSummary.ThreadTextsAppend | tools/summarize_thread.py:27 | texts keep the thread's order |
| ThreadSummary.ThreadTextsEmpty | tools/summarize_thread.py:27-29 | no texts exactly when no message has a "text" key |
| ThreadSummary.Bullets | tools/summarize_thread.py:41 | one "- " line per text, in order |
| ThreadSummary.UserContentLines | tools/summarize_thread.py:41 | splitting the prompt at line breaks gives the bullets back |
| ThreadSummary.Summarize | tools/summarize_thread.py:21-62 | an empty thread posts the fixed notice with no request; otherwise one request, and success exactly when the model answers: one post of header + stripped answer and the same text as `result`; a failed request posts nothing; only `result` is written |
| ThreadSummary.SummaryIsStripped | tools/summarize_thread.py:51 | the stored summary has no surrounding white space |
| ThreadSummary.SummarizeThread | tools/summarize_thread.py:7-62 | the handler's posts, requests and result are exactly those of `Summarize` on the thread's replies |
| Collaborators.SlackClient.ConversationsReplies | tools/summarize_thread.py:22-27 | the stored messages of the thread, or none |
| Collaborators.SlackClient.ChatPostMessage | tools/summarize_thread.py:54-58 | appends exactly one post |
| Collaborators.ChatModel.Complete | tools/summarize_thread.py:43-49 | records the request and returns the model's answer |
| SlackListener.SeenKeys.IsDuplicate | nodes/slack_listener.py:44-48 | a duplicate exactly when the (channel, ts, text) key was seen before; the key is then recorded (the same lines of slack_listener/listener.py, an identical copy) |
| SlackListener.LoadCredentials | nodes/slack_listener.py:16-26 | a failed secrets load is reported; otherwise success exactly when all three secrets are present and non-empty, and the credentials are those values |
| SlackListener.ExtractUserQuery | nodes/slack_listener.py:50-53 | no text gives ""; a text without the mention is only stripped (the same lines of slack_listener/listener.py, an identical copy) |
| SlackListener.LeadingMentionRemoved | nodes/slack_listener.py:50-53 | a leading mention disappears from the query |
| SlackListener.MentionRemoved | nodes/slack_listener.py:50-53 | a mention anywhere in the text disappears: the text before it is kept, every later mention is removed as well, and the rest is stripped |
| SlackListener.NestedMentionSurvives | nodes/slack_listener.py:53 | for any bot id without "<", the text "<@" + mention + id + ">" becomes the mention itself: one pass of `replace` lets a mention spliced around another survive |
| SlackListener.ThreadTs | slack_listener/listener.py:64 | `ts` when truthy, otherwise `event_ts` (as in nodes/slack_listener.py, an identical copy) |
| SlackListener.HandleEvent | nodes/slack_listener.py:55-71 | bot messages and refused channels change nothing; otherwise the key is recorded and the event is a duplicate exactly when it was seen; a new event with a channel reaches the workflow with exactly its query, channel and thread, and without a channel raises KeyError; a reply is sent exactly for a truthy `response` (the same lines of slack_listener/listener.py, an identical copy) |
| SlackListener.HandleAll | nodes/slack_listener.py:55-58 | one outcome per event, and the seen keys only grow |
| SlackListener.InvokedKeyIsNew | nodes/slack_listener.py:44-58 | an event reaching the workflow has a key that no earlier event recorded |
| SlackListener.NoKeyInvokedTwice | nodes/slack_listener.py:44-58 | no two events of a run with the same key both reach the workflow |
| SlackListener.Listener.constructor | nodes/slack_listener.py:15-30 | `allowed_channels or []`, the workflow and the shared seen set |
| SlackListener.Listener.HandleMessageEvent | nodes/slack_listener.py:55-71 | the listener's outcome, seen set and replies are exactly those of `HandleEvent` (the same lines of slack_listener/listener.py, an identical copy) |
| SlackListener.SharedSeenAcrossListeners | nodes/slack_listener.py:44 | an event one listener handled is a duplicate for a second listener |
| Dates.DayField | tools/1A_Charts_tools/1a_charts_datewise_plot.py:40 | a parsed day is in 1..31 |
| Dates.MonthField | tools/1A_Charts_tools/1a_charts_datewise_plot.py:40 | a parsed month is in 1..12 |
| Dates.YearField | tools/1A_Charts_tools/1a_charts_datewise_plot.py:40 | a two-digit year is in 1969..2068 |
| Dates.ParseFields | tools/1A_Charts_tools/1a_charts_datewise_plot.py:40 | accepted fields make a real calendar day |
| Dates.ParseDdMmYy | tools/1A_Charts_tools/1a_charts_datewise_plot.py:40 | a parsed date is a real day in 1969..2068; text without "/" fails |
| Dates.ParseOfSlashed | tools/1A_Charts_tools/1a_charts_datewise_plot.py:40 | three fields without "/" joined by "/" are parsed field by field, each checked on its own |
| Dates.ToDatetime | tools/1A_Charts_tools/1a_charts_datewise_plot.py:40 | NaT exactly for pandas' NaT spellings and the empty text; the clock's day for "now" and "today"; otherwise a day exactly when the strict parse succeeds, and then that day; an error exactly when the text is none of these |
| Dates.DateOf | tools/1A_Charts_tools/1a_charts_datewise_plot.py:40 | the day `.date()` yields: the clock's day for "now" and "today", otherwise the strict parse; always a real day in years 1 to 9999 |
| Dates.ParseFormat | tools/1A_Charts_tools/1a_charts_datewise_plot.py:98 | every such date is read back from its "%d/%m/%y" text |
| Dates.UnpaddedFieldsParse | tools/1A_Charts_tools/1a_charts_datewise_plot.py:40 | "1/7/25" is 1 July 2025 |
| Dates.ImpossibleDayFails | tools/1A_Charts_tools/1a_charts_datewise_plot.py:40 | "31/02/25" does not parse |
| Dates.IsoDate | tools/1A_Charts_tools/1a_charts_publish.py:78 | ten characters with dashes at 4 and 7 and digits elsewhere, reading back as the year, the month and the day |
| Dates.MonthHeader | tools/1A_Charts_tools/1a_charts_publish.py:69-70 | the month's abbreviation, ", ", then the year |
| S3Paths.PathJoin | tools/1A_Charts_tools/1a_charts_publish.py:78 | an absolute name wins; otherwise one "/" between directory and name |
| S3Paths.Basename | tools/1A_Charts_tools/1a_charts_datewise_plot.py:115 | the base name holds no "/" |
| S3Paths.BasenameOfJoin | tools/1A_Charts_tools/1a_charts_datewise_plot.py:102-115 | the base name of a joined path is the joined name |
| S3Paths.SchemePieces | tools/1A_Charts_tools/1a_charts_publish.py:100 | an "s3://" path has at least three pieces, starting "s3:" and "" |
| S3Paths.OutputLocation | tools/1A_Charts_tools/1a_charts_publish.py:99-102 | the bucket is the third piece; the key is the middle pieces, "/output/1A_Charts/" and the base name |
| S3Paths.Between | tools/1A_Charts_tools/1a_charts_publish.py:101 | Python's `pieces[3:-1]`, empty for fewer than four pieces |
| S3Paths.WithUploadNote | tools/1A_Charts_tools/1a_charts_publish.py:96-108 | the upload line is added exactly when uploading is asked for and the CSV is on S3 |
| S3Paths.LocationOfNestedCsv | tools/1A_Charts_tools/1a_charts_datewise_plot.py:112-121 | for s3://bucket/dirs/file the output goes to the same bucket under dirs/output/1A_Charts/ |
| S3Paths.RootCsvKeyStartsWithSlash | tools/1A_Charts_tools/1a_charts_publish.py:101-102 | a CSV at the top of its bucket gives a key starting with "/" |
| ChartsDatewise.FirstMatch | tools/1A_Charts_tools/1a_charts_datewise_plot.py:41-46 | the value of the first row in table order with the date and the metric; none exactly when no row matches |
| ChartsDatewise.LookupDate | tools/1A_Charts_tools/1a_charts_datewise_plot.py:39-50 | an error exactly when pandas rejects the text; NaT compares equal to no row and gives None; "now" and "today" look up the clock's day; a parsed date gives the first match's value or None |
| ChartsDatewise.Assign | tools/1A_Charts_tools/1a_charts_datewise_plot.py:46-50 | an existing key keeps its place; a new key goes last; the map takes the new value |
| ChartsDatewise.MetricResults | tools/1A_Charts_tools/1a_charts_datewise_plot.py:37-51 | the keys are listed once each and are exactly the map's keys |
| ChartsDatewise.MetricResultsEntries | tools/1A_Charts_tools/1a_charts_datewise_plot.py:37-51 | one entry per distinct date string, each holding that date's own lookup, so a bad date affects only itself |
| ChartsDatewise.RepeatedDateKeepsPlace | tools/1A_Charts_tools/1a_charts_datewise_plot.py:38-50 | a repeated date adds no key |
| ChartsDatewise.OneAChartsLookup.GetMetric | tools/1A_Charts_tools/1a_charts_datewise_plot.py:26-51 | the loop's dict is `MetricResults`: keyed by the requested dates, each with its lookup |
| ChartsDatewise.OneAChartsLookup.PlotMetric | tools/1A_Charts_tools/1a_charts_datewise_plot.py:53-124 | the chart is `ChartOf` the dict `get_metric` returns |
| ChartsDatewise.NumericPoints | tools/1A_Charts_tools/1a_charts_datewise_plot.py:75-78 | a point is kept exactly when some key holds an int value and parses to the point's date: NaT and non-numeric entries are dropped |
| ChartsDatewise.NumericPointsInKeyOrder | tools/1A_Charts_tools/1a_charts_datewise_plot.py:75-78 | the points are one per kept key, in the order of the keys, and every kept key has its point |
| ChartsDatewise.InsertPermutes | tools/1A_Charts_tools/1a_charts_datewise_plot.py:78 | insertion adds exactly the one point |
| ChartsDatewise.InsertSorted | tools/1A_Charts_tools/1a_charts_datewise_plot.py:78 | insertion keeps date order |
| ChartsDatewise.SortByDate | tools/1A_Charts_tools/1a_charts_datewise_plot.py:78 | sorted by date and a permutation of its input |
| ChartsDatewise.Underscored | tools/1A_Charts_tools/1a_charts_datewise_plot.py:104 | every space becomes "_", every other character stays |
| ChartsDatewise.FirstBadKey | tools/1A_Charts_tools/1a_charts_datewise_plot.py:76 | none exactly when every key parses, reads as NaT, or is "now" or "today"; otherwise a key that pandas rejects |
| ChartsDatewise.ChartOf | tools/1A_Charts_tools/1a_charts_datewise_plot.py:72-124 | a key pandas rejects raises ValueError; no numeric value raises ValueError; when every key is readable and some value is numeric the chart is drawn, its points the numeric values at their days ("now" and "today" at the clock's day) sorted by date, the file the chart file, and the text naming it and, when uploaded, the S3 URI |
| ChartsDatewise.BadDateFailsPlot | tools/1A_Charts_tools/1a_charts_datewise_plot.py:37-81 | a requested date that pandas rejects (neither a date, NaT, "now" nor "today") makes `plot_metric` raise |
| ChartsDatewise.NaTDateIsDropped | tools/1A_Charts_tools/1a_charts_datewise_plot.py:40-78 | a new NaT date is recorded as None and leaves the chart exactly as it was without it |
| ChartsDatewise.NowDatePlotsToday | tools/1A_Charts_tools/1a_charts_datewise_plot.py:40-78 | a "now" or "today" date is plotted at the clock's day with the value of today's first matching row |
| ChartsDatewise.ChartPointsComeFromDates | tools/1A_Charts_tools/1a_charts_datewise_plot.py:72-78 | each plotted point is the first matching row's value for one of the requested dates |
| ChartsDatewise.ChartFileName | tools/1A_Charts_tools/1a_charts_datewise_plot.py:102-105 | a two-word metric name is saved as "first_second_chart.png" under the output directory: the space becomes "_" |
| ChartsLookupNode.RowLines | tools/1A_Charts_tools/1a_charts_lookup.py:36 | one "date: value" line per row, in row order |
| ChartsLookupNode.Rendered | tools/1A_Charts_tools/1a_charts_lookup.py:30-40 | a raised tool gives "Lookup failed: " + message; an empty error column gives the IndexError message; an error column gives its first entry; rows give the header then the lines joined by "\n" |
| ChartsLookupNode.LookupNode | tools/1A_Charts_tools/1a_charts_lookup.py:12-42 | only `result` is written, always; a missing or empty metric or dates gives the warning and no tool call; otherwise one call with the state's own metric and dates |
| ChartsLookupNode.ThousandsOnOneLine | tools/1A_Charts_tools/1a_charts_lookup.py:36 | a value with separators never holds a line break |
| ChartsLookupNode.RowsReadBack | tools/1A_Charts_tools/1a_charts_lookup.py:36-37 | the result is the header followed by text that splits at line breaks back into the rows' lines |
| ChartsPublish.PrevMonth | tools/1A_Charts_tools/1a_charts_publish.py:44-46 | the previous month is in 1..12 and exactly one calendar month earlier, so January rolls back to December of the year before |
| ChartsPublish.PrevMonthIsUnique | tools/1A_Charts_tools/1a_charts_publish.py:44-46 | it is the only month one before the target |
| ChartsPublish.Window | tools/1A_Charts_tools/1a_charts_publish.py:49-52 | exactly the rows dated in the month and year |
| ChartsPublish.LastValue | tools/1A_Charts_tools/1a_charts_publish.py:55-56 | none exactly when no row has the metric |
| ChartsPublish.MonthValueIsLastRow | tools/1A_Charts_tools/1a_charts_publish.py:49-56 | a month's value is that of the metric's last row in table order among that month's rows, and is absent when there is none |
| ChartsPublish.LastRowBeatsLatestDate | tools/1A_Charts_tools/1a_charts_publish.py:55-56 | a row listed later wins over a row with a later date |
| ChartsPublish.CellOf | tools/1A_Charts_tools/1a_charts_publish.py:69-70 | "N/A" exactly for an absent or zero value |
| ChartsPublish.ChangeOf | tools/1A_Charts_tools/1a_charts_publish.py:63-65 | a change exactly when both values are present and non-zero |
| ChartsPublish.RowFor | tools/1A_Charts_tools/1a_charts_publish.py:59-72 | a metric's row holds this month's and last month's aggregates and their change |
| ChartsPublish.ChangeNeedsBothValues | tools/1A_Charts_tools/1a_charts_publish.py:63-71 | the change cell is present exactly when both value cells are |
| ChartsPublish.DashboardOf | tools/1A_Charts_tools/1a_charts_publish.py:24-110 | a target with no day (rejected by pandas, or NaT) raises ValueError; otherwise, with "now" and "today" read as the clock's day, the two month headers, one row per metric in order, the file under the output directory, and the result text with the upload line when uploaded |
| ChartsPublish.SeptemberAgainstAugust | tools/1A_Charts_tools/1a_charts_publish.py:41-70 | "18/09/25" compares "Sep, 2025" with "Aug, 2025" |
| ChartsPublish.JanuaryAgainstDecember | tools/1A_Charts_tools/1a_charts_publish.py:41-70 | "15/01/25" compares "Jan, 2025" with "Dec, 2024" |
| ChartsPublish.NowTargetIsCurrentMonth | tools/1A_Charts_tools/1a_charts_publish.py:41-78 | a "now" or "today" target compares the clock's month with the month before it and names the file after the clock's day |
| ChartsPublish.OneAChartsPublisher.BuildRows | tools/1A_Charts_tools/1a_charts_publish.py:58-72 | the loop builds two rows, "Total User Base Since Inception" then "Total Activated", each that metric's `RowFor` |
| ChartsPublish.OneAChartsPublisher.PublishDashboard | tools/1A_Charts_tools/1a_charts_publish.py:24-110 | the method's result is `DashboardOf` its table and CSV path |
| PyText.LowerIdempotent | nodes/classify.py:5 | lower-casing twice is lower-casing once |
| PyText.StripEmptyIffAllSpace | nodes/classify_node.py:29-30 | a stripped text is empty exactly when the text is all white space |
| PyText.StripIdempotent | tools/summarize_thread.py:51 | stripping twice is stripping once |
| PyText.RemoveAllAbsent | nodes/slack_listener.py:53 | `replace` leaves a text without the pattern unchanged |
| PyText.RemoveAllAfterPrefix | nodes/slack_listener.py:53 | `replace` keeps a prefix that cannot start the pattern, drops the first occurrence after it and goes on in the rest |
| PyText.Pad4 | tools/1A_Charts_tools/1a_charts_publish.py:78 | four digits reading back as the number |
| PyText.JoinSplit | tools/1A_Charts_tools/1a_charts_publish.py:100-101 | joining the pieces of a split gives the text back |
| PyText.SplitJoin | tools/1A_Charts_tools/1a_charts_publish.py:100-101 | splitting a join of separator-free pieces gives the pieces back |
| PyText.DecimalRoundTrip | tools/1A_Charts_tools/1a_charts_lookup.py:36 | reading a decimal rendering gives the number back |
| PyText.ThousandsIsDecimal | tools/1A_Charts_tools/1a_charts_lookup.py:36 | deleting the separators from `{:,}` gives `str(n)` |

## Left out

- Slack Bolt plumbing is not modelled: `App`, `SocketModeHandler`, the event decorators, `_handle_file_shared_event` with `files_info`, `start`, and the signal handlers. All of it is network I/O and process control.
- The OpenAI calls are oracles: `classify_node`'s model is a function from the prompt to a reply, and `summarize_thread`'s model is a class holding such a function and a request log. Model names, `response_format` and the printed error line are not modelled.
- `load_secrets` and the module-level client set-up are not modelled. `main.py` and `utils/secrets_loader.py` are not part of this model. The listener receives the store's contents or its error as a value.
- The LangGraph runtime is not modelled: `StateGraph`, `compile` and the `@node` decorator. Only the routers and edge tables are modelled, as data.
- CSV loading is not modelled. The table arrives as a sequence of rows with integer values, so float values and `int()` on them are not modelled.
- Rendering is not modelled: the matplotlib chart and its annotations, and the Excel writer with its formatting.
- The S3 `upload_file` calls and `os.makedirs` are not modelled. Only the bucket, key and URI text are.
- The lookup tool behind `lookup_node` is an oracle. Its module name starts with a digit, and `get_metric_value` is defined nowhere in the repository.
- The module-level construction of the lookup tool from its fixed CSV path is not modelled.
- Aliasing is not modelled: handlers update the dict they were given and return it, while the model returns the updated record.
- `handle_intent` imports its handlers from `nodes/`. Those files are not part of this model; it uses the builders from `tools/`.
- `lookup_node` accepts `dates` as a string as well. The state field holds a list only.
- SlackListener.HandleEvent: the workflow is a total function from state to state, so an exception escaping `workflow.invoke` is not modelled.
- StateRecord.State: a key present with the value None reads as an absent key. The source tells the two apart for `text`: `create_jira_ticket` and `update_jira_ticket` reply "... for: None" / "... with: None" where the model raises KeyError("text"), `classify` raises AttributeError where the model raises KeyError("text"), and `classify_node` raises AttributeError where the model takes the blank-text path. The listener always sets `text` to a string.
- ChartsDatewise.LookupDate: the "Error: <message>" entry is modelled without pandas' message text.
- ChartsDatewise.ChartOf: a key pandas rejects gives a ValueError carrying that key instead of pandas' message. The empty-chart ValueError omits the printed list of dates.
- ChartsDatewise.SortByDate: pandas' default quicksort does not fix the order of equal dates. The model sorts stably, and its contracts claim only date order and a permutation.
- ChartsPublish.CellOf: the "%.2fM" text of a value is not modelled, only whether the cell is "N/A".
- ChartsPublish.ChangeOf: the percentage and its "%.2f%%" text are not modelled, only whether a change is shown and from which two values.
- Dates.ParseDdMmYy: only ASCII digits are accepted, while Python's `\d` also matches other Unicode decimal digits. The "%b" names are the C locale's.
- PyText.Lower: covers ASCII letters, KELVIN SIGN and LATIN CAPITAL LETTER I WITH DOT ABOVE. Other non-ASCII letters are kept as they are.
- SlackListener.LoadCredentials: the secrets store's failure message is kept as text, without the exception object.
- Dates.ToDatetime: follows pandas 2.x. The NaT spellings are its `nat_strings` ("NaT", "nat", "NAT", "nan", "NaN", "NAN") and the empty text, and "now" and "today" are read as the current moment whatever the format. Other pandas versions and inputs that are not strings are not modelled.
- Collaborators.SlackClient.ChatPostMessage: a Slack API failure (`SlackApiError` raised by `chat_postMessage`) is not modelled; the post always succeeds.
- Collaborators.SlackClient.ConversationsReplies: a Slack API failure raised by `conversations_replies` is not modelled; the stored replies are always returned. The listener's `say` is likewise taken to succeed.
- ChartsPublish.DashboardOf: a target pandas rejects gives `ValueError(targetDate)` instead of pandas' message. A NaT target, which the source rejects only at `strftime`, is reported the same way.
- ChartsDatewise.ChartOf and ChartsPublish.DashboardOf take `output_dir` and `upload_to_s3` as plain parameters. The defaults of `plot_metric` and `publish_dashboard` ("./" and True) are not modelled; callers pass both.
- The clock is a parameter `today` of `GetMetric`, `PlotMetric`, `ChartOf`, `DashboardOf` and `PublishDashboard`, read once per call. A call that runs across midnight, and the time of day "now" carries before `.date()`, are not modelled.
