# AI agent dashboard: a Dafny model of its component logic

The dashboard is a React/antd front end for AI agents. It lists agents as cards and lets a user search and
filter them. It shows three metrics, opens a detail modal with an editable form and execution history, and
offers a mock agent service, a light/dark theme provider and workflow-editor nodes. This project models the
logic inside those components. Each component is one Dafny module:

- **`AgentSearch`** (`agent_search.dfy`) covers the search panel:
  - the three-part match;
  - the filter, proved to be the in-order selection of exactly the matching agents;
  - the creator drop-down, de-duplicated and then sorted;
  - a `Filters` class for the three state fields and their handlers.
- **`Dashboard`** (`dashboard.dfy`) covers the metric cards and the fetch guard. Its `DashboardPage` class
  holds the modal state that the view, delete and close handlers drive.
- **`AgentCard`** (`agent_card.dfy`) covers:
  - the Running/Idle toggle and the emitted status change;
  - the button-disabled rules;
  - the status dot and tooltip;
  - the avatar seed taken from the id.
- **`AgentDetailModal`** (`agent_detail_modal.dfy`) covers:
  - the status tag colour;
  - the form rules, as antd applies them;
  - the footer;
  - the `DetailModal` class for edit mode and the form values;
  - the success rate, the total and the five-record history.
- **`BaseNode`** (`base_node.dfy`) is the workflow node shell. It covers:
  - the name derived from a node id;
  - the handle ids and styles, with the four variants' handle lists;
  - a `NodeShell` class for the local name and the actions it emits.
- **`Services`** (`services.dfy`) is the mock agent service. The stored data is a parameter.
- **`ThemeProvider`** (`theme_provider.dfy`) covers the initial theme, the toggle and the context flags, with a
  `ThemeState` class.
- **`AgentList`** (`agent_list.dfy`) covers which of the four views the list shows, and each card's loading flag.

Shared modules:

- `Wrappers` holds `Option`, `Result` and `Outcome`.
- `Types` holds the agent and execution-record entities and the lookup by id.
- `Text` holds the string operations: lower-casing, `includes`, sort order, `split`/join, replace, and decimal
  rendering.
- `Percent` holds percentages rounded half up.

Conventions:

- A JavaScript value that may be `null`/`undefined` is an `Option`.
- A call that may throw returns a `Result`, or an `Outcome` when it returns nothing.
- An optional callback prop is a `has…` flag. The handler returns the call it would make.

## Model

| member | source | states |
|---|---|---|
| Types.AgentStatus.Label | src/types/index.ts:6 | the strings "Running", "Idle", "Error" name exactly the three statuses |
| Types.FindById | src/pages/dashboard/Dashboard.tsx:53-56 | no result exactly when no agent has the id; otherwise the result is the first agent carrying the id |
| Text.Lower | src/components/agent/AgentSearch.tsx:34-35 | lower-casing keeps the length and lower-cases each character on its own |
| Text.LowerIdempotent | src/components/agent/AgentSearch.tsx:34-35 | lower-casing twice equals lower-casing once |
| Text.Contains | src/components/agent/AgentSearch.tsx:34-35 | the empty string is contained in every string, and a contained string is no longer than its container |
| Text.ContainsIff | src/components/agent/AgentSearch.tsx:34-35 | `includes` holds exactly when the needle occurs at some index of the string |
| Text.LexLessTotal | src/components/agent/AgentSearch.tsx:25 | any two strings are equal or ordered one way by the sort order |
| Text.LexLessTransitive | src/components/agent/AgentSearch.tsx:25 | the sort order is transitive |
| Text.Split | src/components/agent/AgentCard.tsx:35 | there is always at least one piece; a string without the separator splits into itself alone, one with it into two or more pieces |
| Text.SplitJoin | src/components/agent/AgentCard.tsx:35 | joining the pieces of `split` with the separator gives back the string |
| Text.ReplaceAll | src/components/workflow/BaseNode.tsx:53 | the length is kept, each occurrence of the character is replaced and every other character is left alone |
| Text.DecimalString | src/components/workflow/BaseNode.tsx:92 | the rendering of an index is a non-empty string of decimal digits |
| Text.DecimalRoundTrip | src/components/workflow/BaseNode.tsx:92 | reading back the decimal rendering of an index gives the index |
| AgentSearch.TextMatch | src/components/agent/AgentSearch.tsx:32-35 | the empty query matches every agent; a non-empty query that matches is no longer than the name or than the description |
| AgentSearch.StatusMatch | src/components/agent/AgentSearch.tsx:38-39 | "all" matches every agent; a filter naming a status keeps exactly the agents with that status; any other string keeps none |
| AgentSearch.CreatorMatch | src/components/agent/AgentSearch.tsx:42-43 | "all" matches every agent; any other filter keeps exactly the agents it names as creator |
| AgentSearch.Matches | src/components/agent/AgentSearch.tsx:45 | every agent passes the cleared criteria; a passing agent meets the status and creator parts |
| AgentSearch.TextMatchIff | src/components/agent/AgentSearch.tsx:32-35 | the empty query matches every agent; otherwise the text matches exactly when the lower-cased query occurs in the lower-cased name or the lower-cased description |
| AgentSearch.TextMatchIgnoresCase | src/components/agent/AgentSearch.tsx:32-35 | the case of the query, the name or the description does not change the match |
| AgentSearch.FilterAgents | src/components/agent/AgentSearch.tsx:29-47 | the result is no longer than the input and holds only matching agents from the input; with a status or creator filter other than "all", every result has that status or creator |
| AgentSearch.FilterIsOrderedSelection | src/components/agent/AgentSearch.tsx:29-46 | the result is the input agents at strictly increasing positions, and those positions are exactly the positions of the matching agents |
| AgentSearch.InactiveFiltersKeepAll | src/components/agent/AgentSearch.tsx:32-43 | with an empty query and both drop-downs on "all", the filter returns the input list unchanged |
| AgentSearch.HasActiveFilters | src/components/agent/AgentSearch.tsx:145 | the active-filter bar shows exactly when the fields differ from the cleared ("", "all", "all") fields |
| AgentSearch.CreatedBy | src/components/agent/AgentSearch.tsx:24 | one creator per agent, at the agent's position |
| AgentSearch.Dedup | src/components/agent/AgentSearch.tsx:24 | the Set spread has no repetitions and holds exactly the values of its input |
| AgentSearch.Sort | src/components/agent/AgentSearch.tsx:25 | the sorted list is ordered and is a permutation of its input |
| AgentSearch.Creators | src/components/agent/AgentSearch.tsx:23-26 | the creator list is strictly ascending (so free of duplicates) and holds exactly the agents' `createdBy` values |
| AgentSearch.Filters.constructor | src/components/agent/AgentSearch.tsx:18-20 | the fields start as "", "all", "all" |
| AgentSearch.Filters.HandleSearch | src/components/agent/AgentSearch.tsx:54-56 | replaces the search text and leaves the other fields alone |
| AgentSearch.Filters.HandleStatusFilter | src/components/agent/AgentSearch.tsx:58-60 | replaces the status filter and leaves the other fields alone |
| AgentSearch.Filters.HandleCreatorFilter | src/components/agent/AgentSearch.tsx:62-64 | replaces the creator filter and leaves the other fields alone |
| AgentSearch.Filters.FilteredAgents | src/components/agent/AgentSearch.tsx:50-52 | the list handed up is no longer than the input and holds only input agents matching the current fields; with no active filter it is the input itself |
| AgentSearch.Filters.ShowsActiveFilters | src/components/agent/AgentSearch.tsx:145 | the bar shows exactly when the search text is non-empty or a drop-down is not "all", that is, when the fields are not the cleared ones |
| AgentSearch.Filters.ClearFilters | src/components/agent/AgentSearch.tsx:66-70 | restores the initial fields; afterwards no filter bar shows and every list filters to itself |
| Dashboard.CountRunning | src/pages/dashboard/Dashboard.tsx:42-44 | the count is at most the list length; it equals the length exactly when all agents are Running, and is 0 exactly when none is |
| Dashboard.ComputeMetrics | src/pages/dashboard/Dashboard.tsx:41-50 | active is the Running count, at most the total (the list length); health is 0 for no agents, else the rounded Running percentage in 0..100, which is 100 when all run and 0 when none does |
| Dashboard.ShouldFetchAgents | src/pages/dashboard/Dashboard.tsx:28-33 | the fetch happens only with no agents and no fetch in flight, when every metric is 0 |
| Dashboard.DashboardPage.constructor | src/pages/dashboard/Dashboard.tsx:21-26 | the modal starts hidden, with nothing selected and no records |
| Dashboard.DashboardPage.HandleDelete | src/pages/dashboard/Dashboard.tsx:95-116 | for a known agent that is the one shown, the modal is closed and cleared; for an unknown id or another agent the modal state is unchanged; the agent list is a constant |
| Dashboard.DashboardPage.HandleViewDetails | src/pages/dashboard/Dashboard.tsx:118-140 | for a known agent whose records load, the modal opens with that agent and those records; an unknown id or a failed load leaves the modal state unchanged |
| Dashboard.DashboardPage.HandleModalClose | src/pages/dashboard/Dashboard.tsx:150-154 | the modal is hidden, with nothing selected and no records, whatever the state before |
| Percent.RoundedPercent | src/pages/dashboard/Dashboard.tsx:46-47 | the percentage is in 0..100 and within half a percent of the exact ratio; 0 of n gives 0 and n of n gives 100 |
| AgentCard.ToggledStatus | src/components/agent/AgentCard.tsx:41 | Running becomes Idle and anything else becomes Running, so the result is never Error and always differs from the input |
| AgentCard.ToggleTwice | src/components/agent/AgentCard.tsx:41 | toggling twice from Running or from Idle gives back the status |
| AgentCard.HandleStatusToggle | src/components/agent/AgentCard.tsx:38-43 | no call without a handler; otherwise exactly the call (agent id, toggled status) |
| AgentCard.ForwardId | src/components/agent/AgentCard.tsx:45-55 | no call without a handler; otherwise the agent's id |
| AgentCard.CardButtons | src/components/agent/AgentCard.tsx:79-111 | the toggle is disabled exactly when the status is Error or the card is loading; workflow and details are disabled exactly when loading |
| AgentCard.EnabledToggleRoundTrip | src/components/agent/AgentCard.tsx:90-91 | whenever the toggle is enabled, its result is not Error and a second toggle gives back the status |
| AgentCard.StatusDotClass | src/components/agent/AgentCard.tsx:210-217 | green exactly for Running, gray exactly for Idle, red exactly for Error |
| AgentCard.ToggleTooltip | src/components/agent/AgentCard.tsx:74-78 | says "Stop Agent" exactly when a click stops the agent and "Start Agent" exactly when it starts it |
| AgentCard.AvatarSeed | src/components/agent/AgentCard.tsx:34-36 | the seed is non-empty and free of '-'; an empty id or one ending in '-' gives "1"; otherwise the seed is the whole id, or the text after the id's last '-' |
| AgentCard.LastPieceShape | src/components/agent/AgentCard.tsx:35 | the last piece of `split` is separator-free, and is the whole string or what follows its last separator; it is empty exactly when the string is empty or ends in the separator |
| AgentCard.AvatarUrl | src/components/agent/AgentCard.tsx:57-59 | the address is the fixed base followed by the seed |
| AgentDetailModal.StatusColor | src/components/agent/AgentDetailModal.tsx:49-60 | "Running" gives "success", "Error" gives "error", any other string gives "default" |
| AgentDetailModal.StatusColorOfAgents | src/components/agent/AgentDetailModal.tsx:49-60 | for the three agent statuses, each colour belongs to exactly one status |
| AgentDetailModal.FieldErrors | src/components/agent/AgentDetailModal.tsx:198-202 | no message exactly for a set, non-empty value within the inclusive bounds; a missing or empty value gives only the required message; a too short or too long value gives only the min or max message |
| AgentDetailModal.FormValid | src/components/agent/AgentDetailModal.tsx:85 | validation passes exactly when a name of 15 to 50 and a description of 30 to 150 characters are set |
| AgentDetailModal.NameErrors | src/components/agent/AgentDetailModal.tsx:195-202 | no error exactly when a name is set with 15 to 50 characters (inclusive); missing or empty gives only "Please enter agent name"; at most one message |
| AgentDetailModal.DescriptionErrors | src/components/agent/AgentDetailModal.tsx:210-223 | no error exactly when a description is set with 30 to 150 characters (inclusive); missing or empty gives only the required message; at most one message |
| AgentDetailModal.Footer | src/components/agent/AgentDetailModal.tsx:122-164 | Save is offered exactly while editing and Delete exactly while not |
| AgentDetailModal.DetailModal.constructor | src/components/agent/AgentDetailModal.tsx:44-45 | the modal starts outside edit mode with no form values |
| AgentDetailModal.DetailModal.HandleEdit | src/components/agent/AgentDetailModal.tsx:75-81 | enters edit mode with the form holding the agent's current name and description |
| AgentDetailModal.DetailModal.ChangeName | src/components/agent/AgentDetailModal.tsx:195-208 | typing sets the name value and changes nothing else |
| AgentDetailModal.DetailModal.ChangeDescription | src/components/agent/AgentDetailModal.tsx:210-230 | typing sets the description value and changes nothing else |
| AgentDetailModal.DetailModal.HandleSave | src/components/agent/AgentDetailModal.tsx:83-98 | saves exactly when both fields pass their rules; leaves edit mode only on save and stays in it on failure; the form values are kept |
| AgentDetailModal.DetailModal.HandleCancelEdit | src/components/agent/AgentDetailModal.tsx:100-103 | always leaves edit mode and resets both form values |
| AgentDetailModal.HandleDelete | src/components/agent/AgentDetailModal.tsx:70-73 | no call without `onDelete`; otherwise this agent's id |
| AgentDetailModal.CountSuccesses | src/components/agent/AgentDetailModal.tsx:320-321 | at most the number of records; all of them exactly when all succeeded, none exactly when none did |
| AgentDetailModal.SuccessRate | src/components/agent/AgentDetailModal.tsx:318-325 | 0 with no records; otherwise the rounded success percentage in 0..100, which is 100 when every record succeeded and 0 when none did |
| AgentDetailModal.Performance | src/components/agent/AgentDetailModal.tsx:305-328 | the total is the number of records and the rate is the success rate |
| AgentDetailModal.RecentHistory | src/components/agent/AgentDetailModal.tsx:344 | the first min(5, n) records, in order; all of them when there are at most five |
| BaseNode.StripThroughFirstDash | src/components/workflow/BaseNode.tsx:53 | the result is a suffix of the id; when the first '-' has no line terminator before it, the id is the dash-free prefix, that '-', then the result; otherwise the id is kept |
| BaseNode.DerivedName | src/components/workflow/BaseNode.tsx:53 | the stripped id with each '-' turned into '_', so the name contains no '-' |
| BaseNode.DerivedNameOfTypedId | src/components/workflow/BaseNode.tsx:53 | an id "{type}-{number}" derives the name "{number}" |
| BaseNode.InitialName | src/components/workflow/BaseNode.tsx:52-54 | a set, non-empty `inputName` is the name; otherwise the name is derived from the id and contains no '-' |
| BaseNode.HandleKind.Name | src/components/workflow/BaseNode.tsx:10 | the two kinds are named "source" and "target", both six characters long |
| BaseNode.MergeStyle | src/components/workflow/BaseNode.tsx:96 | the keys are those of either style; the handle's own values win; shared keys it does not set keep their value |
| BaseNode.HandleId | src/components/workflow/BaseNode.tsx:92-95 | the id starts with the node id and '-', and its length is fixed by the node id and the index |
| BaseNode.HandleIdInjective | src/components/workflow/BaseNode.tsx:92-95 | two handle ids of a node are equal only for the same kind at the same index |
| BaseNode.RenderHandles | src/components/workflow/BaseNode.tsx:88-100 | one handle per entry, in order, with id `{id}-{kind}-{index}`, the entry's kind and position, and the merged style (the default style when none is given) |
| BaseNode.RenderedIdsDistinct | src/components/workflow/BaseNode.tsx:90-95 | the rendered handle ids (and keys) are pairwise distinct |
| BaseNode.StartNodeHandles | src/components/workflow/StartNode.tsx:45 | a start node renders the single handle "{id}-source-0" on the right |
| BaseNode.EndNodeHandles | src/components/workflow/EndNode.tsx:43 | an end node renders the single handle "{id}-target-0" on the left |
| BaseNode.ProcessNodeHandles | src/components/workflow/ProcessNode.tsx:71-74 | a process node renders "{id}-target-0" on the left and "{id}-source-1" on the right |
| BaseNode.DecisionNodeHandles | src/components/workflow/DecisionNode.tsx:69-72 | a decision node renders "{id}-target-0" on the left and "{id}-source-1" on the right |
| BaseNode.NodeShell.constructor | src/components/workflow/BaseNode.tsx:52-56 | the local name starts as the initial name |
| BaseNode.NodeShell.HandleNameChange | src/components/workflow/BaseNode.tsx:59-77 | the local name becomes the typed value; exactly one update action (this node, "inputName", the value) is emitted |
| BaseNode.NodeShell.HandleDelete | src/components/workflow/BaseNode.tsx:79-85 | exactly one delete action carrying this node's id is emitted |
| BaseNode.NodeShell.InputField | src/components/workflow/BaseNode.tsx:103-121 | no input exactly when disabled; otherwise an input showing the local name, with the label and the "Enter {label}..." placeholder |
| Services.GetAgents | src/services/index.ts:16-19 | the stored list, as it is |
| Services.GetAgentById | src/services/index.ts:22-25 | null exactly when no stored agent has the id; otherwise the first stored agent with it |
| Services.GetExecutionRecords | src/services/index.ts:28-31 | the table entry for the id, or no records when there is none |
| Services.UpdateAgentStatus | src/services/index.ts:34-43 | fails with "Agent not found" exactly for an unknown id; otherwise a copy of the stored agent with the requested status and every other field equal |
| Services.UpdateToSameStatus | src/services/index.ts:42 | asking for the current status gives back the stored agent |
| Services.DeleteAgent | src/services/index.ts:46-53 | succeeds exactly for a stored id and fails with "Agent not found" otherwise |
| Services.KnownIdsAgree | src/services/index.ts:21-53 | lookup, update and delete succeed for exactly the same ids |
| ThemeProvider.InitialTheme | src/components/providers/ThemeProvider.tsx:10-14 | a non-empty saved setting is the theme; otherwise "dark" |
| ThemeProvider.Toggled | src/components/providers/ThemeProvider.tsx:32-34 | "light" becomes "dark" and any other value becomes "light"; the result is always a valid theme |
| ThemeProvider.ToggleTwice | src/components/providers/ThemeProvider.tsx:33 | on "light" and "dark" two toggles are the identity; any other value becomes "dark" |
| ThemeProvider.ContextOf | src/components/providers/ThemeProvider.tsx:36-41 | isDark exactly for "dark", isLight exactly for "light"; exactly one holds exactly when the theme is valid |
| ThemeProvider.ThemeState.constructor | src/components/providers/ThemeProvider.tsx:10-14 | the state starts at the initial theme |
| ThemeProvider.ThemeState.ToggleTheme | src/components/providers/ThemeProvider.tsx:32-34 | the theme becomes its toggle, which is valid |
| ThemeProvider.ThemeState.Value | src/components/providers/ThemeProvider.tsx:36-41 | the context value is that of the current theme |
| AgentList.LoadingFlag | src/components/agent/AgentList.tsx:67 | true exactly when the map has the id and holds true for it |
| AgentList.CardsFor | src/components/agent/AgentList.tsx:62-73 | one card per agent, in input order, with that agent's loading flag |
| AgentList.View | src/components/agent/AgentList.tsx:33-75 | loading gives 8 skeletons; else a non-empty error gives the alert with that message; else no agents gives the empty state; cards show exactly in the remaining case |
| AgentList.CardsShowAgents | src/components/agent/AgentList.tsx:61-74 | without loading states the cards show the agents exactly, in order, none loading |

## Left out

- Rendering is not modelled. This covers JSX and the antd, reactflow and lucide components, Tailwind classes and
  the skeleton, tag and history markup. It also covers the dark-mode check of the document class in the detail
  modal, and the DOM and `localStorage` writes of the theme provider effect.
- Asynchronous behaviour is not modelled: the simulated delays of the mock service and the promise plumbing.
  The outcome of an awaited call is passed in as a `Result` parameter.
- The following effects are not modelled: notifications, `console.error`, and navigation to the workflow page.
- The store actions the dashboard and the node shell dispatch (`fetchAgents`, `updateAgentStatus`, `deleteNode`,
  `updateNodeField`) are not modelled. `src/store/slices/agentSlice.ts` and `workflowSlice.ts` define no
  reducers for them, so these actions have no semantics to model. The node shell returns the actions it would
  dispatch; the dashboard's status-change handler, which only awaits the thunk and notifies, is not modelled.
- The `WorkflowNodeData` type is imported by the node files but is not declared in `src/types/index.ts`. The model
  takes `inputName` as an optional string.
- The mock agent and execution-record data (`constants/mockData`) is not part of this model. It is a parameter of
  every service operation, which is why no service operation can change it.
- `formatDate`, the execution status icons and the variants' own select state are not modelled. The select state
  includes the temperature field of the process node.
- The dashboard's `filteredAgents` state, `handleSearchChange` and the effect that resets that state are not
  modelled. The state takes the list the search panel hands up, but it is also reset to the full agent list
  whenever the agent list changes (`src/pages/dashboard/Dashboard.tsx:36-38`). React runs the panel's effect
  first, so after such a change the dashboard lists every agent while the panel still shows its filters.
- Percent.RoundedPercent: computes `Math.round(a / t * 100)` on exact rationals, rounding halves up. IEEE
  doubles can differ by one at a half. For example, 23 of 40 gives 57.49999999999999 in floating point, which
  rounds to 57, where the model gives 58.
- Text.Lower: lower-cases ASCII letters only; `toLowerCase` also folds the case of other Unicode letters.
- Text.LexLess: orders by code point. The default `sort()` compares UTF-16 code units, and the two orders
  differ only for characters outside the Basic Multilingual Plane.
- Services.GetExecutionRecords: treats the record table as a plain map. In JavaScript, an id with no entry of
  its own that names an object prototype member, such as "constructor" or "toString", yields that member, which
  is truthy and not an array. The model gives no records.
- AgentList.LoadingFlag: treats the loading-state record as a plain map. In JavaScript, keys inherited from the
  object prototype, such as "constructor", would yield a truthy value.
- AgentSearch.Creators: the creator drop-down's own `filterOption` search is not modelled. Only the list of
  options is.
- AgentDetailModal.DetailModal.HandleSave: a successful save only leaves edit mode and notifies, as the source
  does. It does not change the agent. Validation covers the `required`, `min` and `max` rules as antd applies
  them to strings: `required` fails on a missing or empty value, length rules skip an empty value, and both
  bounds are inclusive. The "less than 50/150 characters" messages therefore describe a bound the rule does
  not enforce.
- BaseNode.StripThroughFirstDash: the pattern `/^.*?-/` cannot match when a line terminator comes before the
  first '-', because `.` does not match one. In that case the id is kept whole, and the later '-'s are still
  replaced.
- BaseNode.NodeShell: the local name is seeded once, at mount, as `useState` does. A later change of
  `data.inputName` is not reflected, in the model or in the source.
- The layout header, routing, lazy loading, scroll-to-top and the theme colour constants are outside the
  modelled components.
