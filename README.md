# Task tracker components, modelled in Dafny

A model of the two React components of a client-side task tracker, with proofs about them:

- `TaskList` filters the store's tasks by an optional status and an optional priority. It also cycles a task's status (todo → in-progress → done → todo) and deletes a task once the user confirms.
- `TaskForm` validates a new task's title and sends a normalised `addTask` request to the store. Then it resets itself.

The task store (`src/context/TaskContext`) is not part of this model. Each component class keeps a `requests` log instead. Every call it makes to `addTask`, `updateTask` or `deleteTask` is appended to that log as a `StoreRequest` value. Nothing is assumed about what the store does with a request.

Files:

- `tasks.dfy` (module `Tasks`): the `Task` entity, the `addTask` and `updateTask` payloads, and the `StoreRequest` log entries.
- `text.dfy` (module `Text`): JavaScript's `String.prototype.trim` over ECMAScript's whitespace set.
- `task_list.dfy` (module `TaskListComponent`): the filter predicate, the status cycle, the select options, and the `TaskList` class (filter state and request log).
- `task_form.dfy` (module `TaskFormComponent`): validation, payload construction, and the `TaskForm` class (`formData`, `error` and request log).

The form trims the title and turns a blank description into "absent" before it calls `addTask` (src/components/TaskForm.tsx:50-55), so the model proves these properties of the request the form sends.

The form's `error` string is modelled as `Option<ValidationError>`. `None` stands for `""`, and the two constructors stand for the two messages.

## Model

| member | source | states |
|---|---|---|
| `Tasks.StatusPatch` | src/components/TaskList.tsx:35 | the status-change patch carries the given status and no title, description or priority |
| `Text.Trim` | src/components/TaskForm.tsx:34 | `trim` never lengthens a string; the result is empty exactly when every character is whitespace; a non-empty result has no whitespace at either end |
| `Text.LeadingWhitespace` | src/components/TaskForm.tsx:51 | counts the whitespace the string starts with: every character before the count is whitespace, the one at the count is not |
| `Text.TrailingWhitespace` | src/components/TaskForm.tsx:51 | counts the whitespace the string ends with: every character after the count from the end is whitespace, the one before it is not |
| `Text.TrimIsInfix` | src/components/TaskForm.tsx:51-52 | the trimmed string is a contiguous piece of the input, with only whitespace before and after it |
| `Text.TrimIdempotent` | src/components/TaskForm.tsx:51-52 | trimming an already trimmed string changes nothing |
| `Text.TrimLeavesTrimmed` | src/components/TaskForm.tsx:51-52 | a non-empty string with no whitespace at either end is its own trim |
| `TaskListComponent.FilteredTasks` | src/components/TaskList.tsx:12-18 | the filtered list is never longer than the list |
| `TaskListComponent.FilteredMembership` | src/components/TaskList.tsx:13-17 | soundness and completeness: a task is in the filtered list exactly when it is in the list and meets both criteria |
| `TaskListComponent.FilteredMembershipAll` | src/components/TaskList.tsx:13-17 | the same membership equivalence, for every task at once |
| `TaskListComponent.FilterCons` | src/components/TaskList.tsx:13-17 | the filter keeps the first task exactly when it passes, then filters the rest |
| `TaskListComponent.NoFilterKeepsAll` | src/components/TaskList.tsx:13-17 | with no status and no priority criterion the filtered list is the whole list, in order |
| `TaskListComponent.FilteredIsSubsequence` | src/components/TaskList.tsx:13-17 | the filtered list is a subsequence of the tasks: relative order is kept |
| `TaskListComponent.FilteredCount` | src/components/TaskList.tsx:13-17 | a matching task occurs in the result as often as in the list, and a non-matching one not at all |
| `TaskListComponent.FilterOverConcat` | src/components/TaskList.tsx:13-17 | filtering a concatenation is the concatenation of the filtered parts |
| `TaskListComponent.FilterIdempotent` | src/components/TaskList.tsx:13-17 | filtering the filtered list again changes nothing |
| `TaskListComponent.CriteriaCompose` | src/components/TaskList.tsx:15-16 | filtering by both criteria equals filtering by status, then by priority |
| `TaskListComponent.NextStatus` | src/components/TaskList.tsx:30-34 | the status map never maps a status to itself |
| `TaskListComponent.StatusCycleHasPeriodThree` | src/components/TaskList.tsx:30-34 | three steps of the status map give back the original status, two steps never do |
| `TaskListComponent.StatusCycleReachesAll` | src/components/TaskList.tsx:30-34 | every status is reached from todo in at most two steps |
| `TaskListComponent.StatusName` | src/components/TaskList.tsx:72-74 | every status option value is non-empty, so none is confused with "All Statuses" |
| `TaskListComponent.PriorityName` | src/components/TaskList.tsx:88-90 | every priority option value is non-empty, so none is confused with "All Priorities" |
| `TaskListComponent.StatusNameInjective` | src/components/TaskList.tsx:72-74 | distinct statuses have distinct option values |
| `TaskListComponent.PriorityNameInjective` | src/components/TaskList.tsx:88-90 | distinct priorities have distinct option values |
| `TaskListComponent.StatusOptionOf` | src/components/TaskList.tsx:62 | the status select shows an option value, and "" exactly when there is no status criterion |
| `TaskListComponent.PriorityOptionOf` | src/components/TaskList.tsx:78 | the priority select shows an option value, and "" exactly when there is no priority criterion |
| `TaskListComponent.StatusCriterion` | src/components/TaskList.tsx:66 | "" clears the status criterion; any other option sets the status whose value it is |
| `TaskListComponent.PriorityCriterion` | src/components/TaskList.tsx:82 | "" clears the priority criterion; any other option sets the priority whose value it is |
| `TaskListComponent.StatusOptionRoundTrip` | src/components/TaskList.tsx:62-67 | the criterion the status select sets is the one it then shows, and the reverse |
| `TaskListComponent.PriorityOptionRoundTrip` | src/components/TaskList.tsx:78-83 | the criterion the priority select sets is the one it then shows, and the reverse |
| `TaskListComponent.TaskList.constructor` | src/components/TaskList.tsx:6-10 | a fresh list has no criterion and has sent nothing |
| `TaskListComponent.TaskList.Visible` | src/components/TaskList.tsx:12-18 | a task is rendered exactly when it is in the store's list and meets the current filter |
| `TaskListComponent.TaskList.SelectStatus` | src/components/TaskList.tsx:63-67 | sets or clears the status criterion from the chosen option and keeps the priority criterion |
| `TaskListComponent.TaskList.SelectPriority` | src/components/TaskList.tsx:79-83 | sets or clears the priority criterion from the chosen option and keeps the status criterion |
| `TaskListComponent.TaskList.ChangeStatus` | src/components/TaskList.tsx:29-36 | sends exactly one update, for the task's id, whose patch holds only the next status; the request concerns a task that was rendered when it was sent; every request the list sends is a status-only update or a delete |
| `TaskListComponent.TaskList.Delete` | src/components/TaskList.tsx:21-27 | sends a delete for the task's id when confirmed, and nothing otherwise |
| `TaskFormComponent.ApplyChange` | src/components/TaskForm.tsx:27-28 | an input change overwrites the named field and keeps the other two |
| `TaskFormComponent.Validate` | src/components/TaskForm.tsx:33-43 | "empty title" exactly when the title is all whitespace; otherwise "too long" exactly when the untrimmed title exceeds 100 characters; success otherwise |
| `TaskFormComponent.PaddedTitleIsTooLong` | src/components/TaskForm.tsx:38-41 | the length check counts the raw title: a one-letter title padded to over 100 characters trims to length 1 and is still refused as too long |
| `TaskFormComponent.NewTaskFrom` | src/components/TaskForm.tsx:50-55 | the payload has the trimmed title, the form's priority and status todo; no description exactly when it is blank, otherwise the trimmed, non-empty description |
| `TaskFormComponent.ValidFormGivesWellFormedTask` | src/components/TaskForm.tsx:34-55 | a form that passes validation yields a task whose title has 1 to 100 characters and no surrounding whitespace, and whose description is absent or trimmed and non-empty |
| `TaskFormComponent.TaskForm.constructor` | src/components/TaskForm.tsx:13-22 | a fresh form holds `INITIAL_FORM_DATA` (empty title and description, medium priority), no error, and has sent nothing |
| `TaskFormComponent.TaskForm.HandleInputChange` | src/components/TaskForm.tsx:24-31 | overwrites only the named field and leaves the error empty |
| `TaskFormComponent.TaskForm.ValidateForm` | src/components/TaskForm.tsx:33-43 | returns whether the form is valid; on failure sets the matching error; on success leaves the error as it was |
| `TaskFormComponent.TaskForm.HandleSubmit` | src/components/TaskForm.tsx:45-60 | invalid form: data and log unchanged, error set. Valid form: exactly one `addTask` of the normalised task is sent, and the form is reset to the initial data with no error. Every task ever sent is well-formed |

## Left out

- The task store (`src/context/TaskContext`) is not part of this model, and neither is its id generation. `addTask`, `updateTask` and `deleteTask` appear only as requests appended to a component's log. Nothing is claimed about how the store merges a patch or removes a task.
- The `Task` type (`src/types/task`) is not part of this model. `Task` has the fields the two components use. The id is an opaque string.
- `window.confirm` (src/components/TaskList.tsx:23) is a blocking browser dialog. The user's answer is the `confirmed` parameter of `Delete`.
- React mechanics (`useState`, `useMemo`, re-rendering) are left out. State is plain fields; `filteredTasks` is the function `FilteredTasks` of the tasks and the filter. A new task list arriving from the store on re-render is not modelled: `TaskList.tasks` is set once, by the constructor.
- `ChangeStatus` and `Delete` require the task to be one of the rendered tasks. The source creates these handlers only for the tasks it renders.
- `SelectStatus` and `SelectPriority` require the chosen value to be one of the select's `<option>` values, which is all a `<select>` can produce. The source casts the string without checking it.
- JSX rendering, CSS, labels, the "No tasks found." branch, the character counter and the `maxLength={100}` input attribute are presentation and are left out. The 100-character rule is enforced by `validateForm`, which is modelled.
- The two error messages are the constructors of `ValidationError`, not their Chinese text.
- Strings are sequences of Unicode scalar values. JavaScript counts `length` in UTF-16 code units, so a title containing characters outside the Basic Multilingual Plane is counted shorter here than in the browser.
- `IsWhitespace` is the set of ECMAScript WhiteSpace and LineTerminator code points for the current Unicode space separators. Changes to that set in other Unicode versions are not modelled.
- `src/App.tsx` only wires the components together and is left out.
