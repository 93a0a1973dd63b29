# prompt-exec-api: the prompt pipeline, modelled in Dafny

prompt-exec-api is an HTTP service that accepts a list of prompts ("steps") and runs them
through language-model and other engines one after another. Each step's text is a template.
Its `{{name}}` placeholders are filled from the step's own parameters and from the values
that earlier steps returned.

This project models and proves the following parts:

- **The pipeline engine** (`ProcessingService.process` and `resume`). It walks a request's
  steps in `ordem` order. For each step it:
  - renders the template (`prepareSubstituicoes`, `replacePlaceholders`);
  - dispatches to an engine;
  - merges the engine's JSON result into the running context (`Object.entries`, with arrays
    spread into `key.index` entries);
  - logs a result row.

  The request's status moves `em_progresso` → `concluido`, or to `erro` on the first
  exception. `resume` skips the steps up to the last logged row. It starts from an empty
  context, because the source does not await `loadResultadosGlobais`.
- **The in-memory store** the engine and the handlers read and write: requests, prompt rows
  sorted by `ordem`, parameter rows, result rows, and a log of status updates. This is the
  `Store.Database` class.
- **The HTTP handlers** of `SolicitacaoController`:
  - `create` validates the prompt list, stores it in posted order, answers 202 and runs the
    pipeline;
  - `getProgress`, `getResultado` and `resume`.
- **The two engine registries**: `LLMIntegration` with 3 engines and `PromptProcessorService`
  with 13. Each is a case-insensitive name lookup that throws on unknown names.
- **The cURL engine's parser**, which turns a command line into a request configuration:
  method, URL, headers, body, basic auth and redirects. It reproduces the regular
  expressions' leftmost, greedy and lazy matching and the backtracking they do.
- **The chat adapters' `extrairJSON`**, in its two variants:
  - the OpenAI one falls back to the raw text when parsing fails;
  - the "gemini" one throws instead.

  Both take the first fenced `json` block, trim it and parse it. The OpenAI adapter's
  request construction and both adapters' status checks are modelled too.
- **The FreePik adapter's payload defaults** and `calculateBase64Size`. The size function is
  proved against the base64 encoding of section 4 of RFC 4648, which Node's
  `Buffer.toString('base64')` produces.

Several collaborators are function parameters:
- every engine's `process`;
- `JSON.parse`, which returns None where it throws;
- `axios`, `qs.stringify` and the image repository.

JSON values are the `Js.Json` datatype. Numbers are integers, and objects keep their entries
in order.

Where an operation updates state in the source, it is a method on `Store.Database` or a
method that takes one. Each such method is proved against a specification function:
- `ExecuteSteps` for a run of steps;
- `Overlay` for the substitutions;
- `MergeResult` for the merge;
- `CurlConfigOf` for the cURL parser;
- `ProcessOf` for the OpenAI adapter.

The properties the source promises are lemmas about these functions.

## Model

| member | source | states |
|---|---|---|
| Js.TrimSpec | src/services/ProcessingService.js:113 | `trim()` leaves no white space at either end, and text without white space at its ends is unchanged |
| Js.Falsy | src/services/ProcessingService.js:113 | the JavaScript falsy JSON values: `null`, `false`, `0` and `""`; `Templates.DisplayPolicy` states how `\|\| ''` uses it |
| Js.Trim | src/services/ProcessingService.js:113 | `String.prototype.trim` over the `\s` set; `Js.TrimSpec` states that nothing trimmable is left at either end and that trimmed text is kept |
| Js.ToJsString | src/services/ProcessingService.js:113 | `String(v)`, how a substituted value is written: `null`, `true`/`false`, decimal integers, strings as themselves, arrays joined with commas, objects as `[object Object]`; `Templates.DisplayPolicy` uses it |
| Js.NatToString | src/services/ProcessingService.js:33 | the decimal digits of an index in a template literal; `Js.NatToStringInjective` states that distinct indices give distinct texts |
| Js.ToLower | src/services/LLMIntegration.js:12 | lowercasing keeps the length, maps each ASCII letter to its lowercase form and keeps every other character |
| Js.InheritedText | src/services/ProcessingService.js:113 | a key an object does not own reads a non-empty text exactly when `Object.prototype` has that property; `constructor` reads as the `Object` function |
| Js.ToLowerIdempotent | src/services/PromptProcessorService.js:23 | lowercasing an already lowercased engine name changes nothing |
| Js.Prop | src/services/ProcessingService.js:26 | reading a property throws exactly on `null`; a property found on an object is one of its entries |
| Js.FindField | src/services/ProcessingService.js:119 | a key read from a parsed object is absent exactly when no entry has that name, and otherwise is an entry of the object |
| Js.NatToStringInjective | src/services/ProcessingService.js:33 | different indices print as different decimal strings, so the `key.index` names do not collide |
| Bindings.LastWrite | src/services/ProcessingService.js:105-108 | the last write to a key is absent exactly when no write names it, and otherwise is one of the writes |
| Bindings.ApplyWrites | src/services/ProcessingService.js:105-108 | `obj[k] = v` for each write in turn; `Bindings.LastWriteWins` states which keys end up bound and to what, and `Bindings.ApplyWritesAppend` that runs of writes compose |
| Bindings.LastWriteWins | src/services/ProcessingService.js:105-108 | after a sequence of assignments a key is bound exactly when it was bound before or assigned, and the last assignment wins |
| Bindings.ApplyWritesAppend | src/services/ProcessingService.js:29-39 | assigning two sequences of writes one after the other is assigning their concatenation |
| Bindings.LastWriteAt | src/services/ProcessingService.js:107 | the write at index i is the last one for its key when no later write names that key |
| Templates.ParamWrites | src/services/ProcessingService.js:106-108 | each parameter row becomes one assignment of its name to its value, in order |
| Templates.Overlay | src/services/ProcessingService.js:104-110 | the substitution table: a copy of the context with each parameter assigned in turn; `Templates.OverlayPrecedence` states which binding wins, and `Templates.PrepareSubstituicoes` computes it with a loop over the copy |
| Templates.PrepareSubstituicoes | src/services/ProcessingService.js:104-110 | the copy of the context overwritten by the parameters in order is `Overlay` |
| Templates.OverlayPrecedence | src/services/ProcessingService.js:104-110 | a key is bound when the context or any parameter binds it; the last parameter of that name wins over earlier ones and over the context; otherwise the context's value stays |
| Templates.FindClose | src/services/ProcessingService.js:113 | the lazy `.*?` ends at a `}}` at or after the search start |
| Templates.ReplaceWith | src/services/ProcessingService.js:113 | `content.replace(/\{\{(.*?)\}\}/g, callback)` for any callback; `Templates.ReplaceWithoutPlaceholder`, `Templates.ReplacePlainPrefix`, `Templates.ReplaceOneMatch` and `Templates.ReplaceAtClose` state how it scans |
| Templates.Display | src/services/ProcessingService.js:113 | `substituicoes[key] \|\| ''` as text; `Templates.DisplayPolicy` and `Templates.MissingBindingReadsPrototype` state its cases |
| Templates.Replacement | src/services/ProcessingService.js:113 | the callback `(_, key) => substituicoes[key.trim()] \|\| ''`: the display of the trimmed key |
| Templates.ReplacePlaceholders | src/services/ProcessingService.js:112-114 | `replacePlaceholders`: the scan with that callback; `Templates.ReplaceOnePlaceholder` states that each placeholder becomes its trimmed key's display, `Templates.ReplaceWithoutPlaceholder` that text without one is kept, and `Templates.MissingBindingReadsPrototype` what an unbound key gives |
| Templates.ReplaceWithoutPlaceholder | src/services/ProcessingService.js:113 | text without a `{{…}}` placeholder is returned unchanged, whatever the replacer callback |
| Templates.FindCloseOfKey | src/services/ProcessingService.js:113 | the placeholder `{{k}}` closes right after `k` when `k` holds no `}` or line break |
| Templates.ReplacePlainPrefix | src/services/ProcessingService.js:113 | text before the first `{` is copied through unchanged, whatever the replacer callback |
| Templates.ReplaceOnePlaceholder | src/services/ProcessingService.js:113 | a placeholder is replaced by the display of the trimmed key's binding, and replacement continues after it |
| Templates.ReplaceOneMatch | src/services/ProcessingService.js:113 | for any replacer callback, a placeholder after plain text is replaced by the callback's value on its captured key, and the scan continues after it |
| Templates.ReplaceBare | src/services/ProcessingService.js:113 | a template that is a single placeholder renders as the callback's value on its key |
| Templates.ReplaceAtClose | src/services/ProcessingService.js:113 | a match at the start, closed by the first `}}`, is replaced by the callback's value on the text between the braces |
| Templates.ReplaceAtPlaceholder | src/services/ProcessingService.js:113 | a template that starts with a placeholder renders as the callback's value on its key followed by the rest rendered |
| Templates.ReplaceAtPlainChar | src/services/ProcessingService.js:113 | a leading character other than `{` is kept and the rest is rendered |
| Templates.DisplayPolicy | src/services/ProcessingService.js:113 | `substituicoes[key] \|\| ''`: a falsy binding renders as the empty string and a string binding as itself; an unbound key renders empty exactly when it is not inherited from `Object.prototype`, and `constructor` renders as the `Object` function |
| Templates.MissingBindingReadsPrototype | src/services/ProcessingService.js:113 | a placeholder whose trimmed key the table does not own is not an error: it renders as the inherited property's text, which is empty exactly when the key is not inherited from `Object.prototype` |
| Merge.Entries | src/services/ProcessingService.js:29 | `Object.entries` throws exactly on `null`, gives an object's entries in order, and gives one entry per element of an array |
| Merge.IndexKey | src/services/ProcessingService.js:33 | the name of an array element is the key followed by `.` and the index |
| Merge.EntryWrites | src/services/ProcessingService.js:30-38 | the assignments of one entry: `key.i` per array element, otherwise the key itself; `Merge.ArrayEntryBindsIndices` and `Merge.ScalarEntryBindsKey` state what they bind |
| Merge.Writes | src/services/ProcessingService.js:29-39 | the assignments of all entries, first entry first; `Merge.MergeEntriesStep` states that one more entry adds its own assignments on top |
| Merge.MergeResult | src/services/ProcessingService.js:29-39 | the context after a step's result is merged, or the throw of `Object.entries`; `Merge.MergeResultOfPrimitives`, `Merge.ArrayEntryBindsIndices`, `Merge.ScalarEntryBindsKey` and `Merge.MergeKeepsUntouched` state its cases, and `Merge.MergeInto` computes it with the loop |
| Merge.IndexKeyInjective | src/services/ProcessingService.js:33 | two elements of the same array never get the same name |
| Merge.MergeEntriesStep | src/services/ProcessingService.js:29-39 | merging one more entry is merging the earlier entries and then that entry |
| Merge.ArrayEntryBindsIndices | src/services/ProcessingService.js:30-34 | an array value binds `key.i` to its i-th element, leaves every other name as it was, and does not bind `key` itself |
| Merge.ScalarEntryBindsKey | src/services/ProcessingService.js:35-38 | a value that is not an array is bound under its own key |
| Merge.MergeResultOfPrimitives | src/services/ProcessingService.js:29 | a `null` result throws; a boolean or number result adds nothing |
| Merge.MergeKeepsUntouched | src/services/ProcessingService.js:29-39 | a name the result neither assigns nor spreads into keeps its binding |
| Merge.MergeInto | src/services/ProcessingService.js:29-39 | the loop over the entries computes `MergeResult` |
| Merge.MergePrefixStep | src/services/ProcessingService.js:29-39 | merging the first i+1 entries is merging the first i and then entry i |
| Merge.AssignIndices | src/services/ProcessingService.js:32-34 | the `forEach` over an array binds exactly the `key.index` writes |
| Merge.SpreadEntries | src/services/ProcessingService.js:120 | spreading an object gives its entries, and spreading `null`, a boolean or a number gives none |
| Merge.LoadResultadosGlobais | src/services/ProcessingService.js:116-122 | the `reduce` with spread over the parsed results; `Merge.LoadLaterWins`, `Merge.LoadKeepsEarlier` and `Merge.LoadKeepsArraysWhole` state what it binds |
| Merge.LoadLaterWins | src/services/ProcessingService.js:118-121 | in the accumulated results a key of the latest result holds that result's value |
| Merge.LoadKeepsEarlier | src/services/ProcessingService.js:118-121 | a key the latest result lacks keeps the value accumulated from the earlier ones |
| Merge.LastWriteIsFindField | src/services/ProcessingService.js:119-120 | spreading keeps an object's last entry of each name, as a property read does |
| Merge.LoadKeepsArraysWhole | src/services/ProcessingService.js:116-122 | the spread keeps an array whole under its key, while the step merge splits it into `key.index` entries |
| Store.InsertByOrdem | src/data/PromptRepository.js:37 | inserting a row adds exactly one row |
| Store.SortByOrdem | src/data/PromptRepository.js:37 | `ORDER BY ordem ASC`; `Store.SortByOrdemSpec` states that it returns a sorted permutation and `Store.SortByOrdemSorted` that sorted rows come back unchanged |
| Store.InsertByOrdemPermutes | src/data/PromptRepository.js:37 | inserting by `ordem` keeps every row: the result is a permutation of the rows plus the new one |
| Store.InsertByOrdemSorted | src/data/PromptRepository.js:37 | inserting into rows sorted by `ordem` keeps them sorted |
| Store.SortByOrdemSpec | src/data/PromptRepository.js:35-41 | `ORDER BY ordem ASC` yields rows sorted by `ordem` that are a permutation of the input |
| Store.SortByOrdemSorted | src/data/PromptRepository.js:37 | rows already in `ordem` order come back unchanged |
| Store.InsertAtEnd | src/data/PromptRepository.js:37 | a row whose `ordem` is not below the last one goes at the end |
| Store.Where | src/data/PromptRepository.js:36-38 | `WHERE column = ?`: the result holds only stored rows whose column holds the id |
| Store.WhereAppend | src/data/PromptRepository.js:36-38 | filtering distributes over concatenation |
| Store.WhereNone | src/data/PromptRepository.js:36-38 | rows with another id are all filtered out |
| Store.WhereAll | src/data/PromptRepository.js:36-38 | rows with this id are all kept, in order |
| Store.PromptsOf | src/data/PromptRepository.js:36-38 | `WHERE solicitacao_id = ?` on the prompts: `Store.Where` on that column |
| Store.ParametrosOf | src/services/ProcessingService.js:19 | a step's parameters: `Store.Where` on the `prompt_id` column |
| Store.ParametrosOfAfter | src/services/ProcessingService.js:19 | rows of other prompts in front do not change a prompt's parameters |
| Store.ParametrosOfBefore | src/services/ProcessingService.js:19 | rows of other prompts behind do not change a prompt's parameters |
| Store.ResultadosOf | src/services/ProcessingService.js:117 | a request's result rows: `Store.Where` on the `solicitacao_id` column |
| Store.Database.CreateSolicitacao | src/controllers/SolicitacaoController.js:703 | a new request gets the next id and is stored with no result, and nothing else changes |
| Store.Database.GetSolicitacaoByProtocolo | src/services/ProcessingService.js:10 | the request stored under a protocol id, or none |
| Store.Database.GetPromptsBySolicitacao | src/data/PromptRepository.js:35-41 | the request's prompt rows sorted by `ordem`; `Store.SortByOrdemSpec` and `SolicitacaoController.CreatedStepsInPostedOrder` state what it returns |
| Store.Database.GetParametrosByPrompt | src/services/ProcessingService.js:19 | a prompt's parameter rows in stored order; `SolicitacaoController.CreatedStepParameters` states that a new step gets exactly its own |
| Store.Database.GetUltimoPromptResultado | src/services/ProcessingService.js:65-66 | the last result row logged for the request; `ProcessingService.OrdemInicio` and `ProcessingService.ResumePicksUpAfterLastRow` use it |
| Store.Database.GetResultadosBySolicitacao | src/services/ProcessingService.js:117 | the request's result rows in logged order |
| Store.Database.UpdateSolicitacaoStatus | src/services/ProcessingService.js:13 | the status is logged and set on a stored request; the result is replaced only when one is given |
| Store.Database.InsertPrompt | src/data/PromptRepository.js:14-28 | the row gets the next id and is appended; falsy model parameters are stored as absent |
| Store.Database.InsertParametro | src/controllers/SolicitacaoController.js:721 | the parameter row is appended |
| Store.Database.InsertPromptResultado | src/services/ProcessingService.js:42 | the result row is appended |
| Registry.LlmAdapterFor | src/services/LLMIntegration.js:12-24 | a selected adapter's name is the lowercased engine name |
| Registry.LlmAdapterNamed | src/services/LLMIntegration.js:13-23 | the cases of the switch on the lowercased name: a selected adapter's name is that name |
| Registry.LlmProcessPrompt | src/services/LLMIntegration.js:6-31 | a missing engine throws a TypeError; an unknown one throws `Engine não suportada`; otherwise the selected adapter is called with the prompt and model |
| Registry.LlmLookupExact | src/services/LLMIntegration.js:12-21 | the lookup selects adapter a exactly when the lowercased name is a's name |
| Registry.LlmLookupCaseInsensitive | src/services/LLMIntegration.js:12 | the lookup depends only on the lowercased name |
| Registry.LlmUnknownCallsNothing | src/services/LLMIntegration.js:22-23 | for an unknown engine the outcome does not depend on the adapters: none is called |
| Registry.AdapterFor | src/services/PromptProcessorService.js:23-65 | a selected adapter's name is the lowercased engine name |
| Registry.AdapterNamed | src/services/PromptProcessorService.js:24-64 | the 13 cases of the switch on the lowercased name: a selected adapter's name is that name |
| Registry.ProcessPrompt | src/services/PromptProcessorService.js:17-72 | a missing engine throws a TypeError; an unknown one throws; otherwise the selected adapter gets the prompt, model and model parameters |
| Registry.AdapterLookupExact | src/services/PromptProcessorService.js:23-62 | the lookup selects adapter a exactly when the lowercased name is a's name |
| Registry.AdapterNamesDistinct | src/services/PromptProcessorService.js:24-62 | the 13 case labels are distinct, so each name selects one adapter |
| Registry.AdapterLookupCaseInsensitive | src/services/PromptProcessorService.js:23 | the lookup depends only on the lowercased name |
| Registry.UnknownCallsNothing | src/services/PromptProcessorService.js:63-64 | for an unknown engine the outcome does not depend on the adapters |
| Registry.LlmRegistryIncluded | src/services/LLMIntegration.js:13-21 | the three LLM names select the corresponding adapters in the larger registry |
| ProcessingService.Step | src/services/ProcessingService.js:19-42 | a step dispatches exactly when its content is present, with its own engine and model; a successful step's result is the engine's answer to the rendered text, merged into the context |
| ProcessingService.StepOf | src/services/ProcessingService.js:19-42 | the step over the stored parameter table: a prompt's own parameter rows feed `ProcessingService.Step`; `ProcessingService.StepOfStepsAs` states it is the step the loops run |
| ProcessingService.StepOfStepsAs | src/services/ProcessingService.js:19-42 | the step function over the stored parameters is the one the loops run |
| ProcessingService.ExecuteSteps | src/services/ProcessingService.js:18-43 | a run logs at most one row per step; a completed run logs one per step, and a failed run fewer |
| ProcessingService.RowsFollowSteps | src/services/ProcessingService.js:42 | the i-th result row belongs to the i-th step |
| ProcessingService.ExecuteStepsAppend | src/services/ProcessingService.js:18-43 | running a + b is running a and, when it did not fail, b from the context a left |
| ProcessingService.DispatchesInOrder | src/services/ProcessingService.js:18-43 | steps are dispatched in order with their own engine and model; a completed run dispatches every step; a failure stops after the failing step |
| ProcessingService.DispatchesFollowSteps | src/services/ProcessingService.js:18-43 | the same for any step function that dispatches with the step's own engine and model |
| ProcessingService.ResultRows | src/services/ProcessingService.js:42 | each logged row holds the request, the step's id and `ordem`, and the step's result |
| ProcessingService.ExecutePrompt | src/services/ProcessingService.js:19-42 | one loop iteration dispatches as `Step` says, and logs its row exactly when the step succeeds |
| ProcessingService.Process | src/services/ProcessingService.js:8-50 | an unknown request logs `erro` and changes nothing else; otherwise the stored steps are run in `ordem` order from an empty context, their rows are logged, and the status goes `em_progresso` then `concluido` with the context, or `erro` |
| ProcessingService.ProcessFound | src/services/ProcessingService.js:13-45 | for a stored request: `em_progresso`, the stored steps in `ordem` order from an empty context, then `concluido` with the context or `erro`, with one result row per completed step |
| ProcessingService.Start | src/services/ProcessingService.js:13 | the first status write: the request becomes `em_progresso` and keeps its result |
| ProcessingService.Conclude | src/services/ProcessingService.js:45-48 | the last status write: `concluido` with the final context as the result, or `erro` with the result kept |
| ProcessingService.EndStatus | src/services/ProcessingService.js:45-48 | `concluido` after a run that ended, `erro` after one that threw |
| ProcessingService.Concluded | src/services/ProcessingService.js:45-48 | the request a run leaves: its status from `ProcessingService.EndStatus`, and the final context as its result only when the run completed |
| ProcessingService.AdvanceRun | src/services/ProcessingService.js:18-43 | one loop iteration with its bookkeeping: either the run continues from the merged context with the rest of the steps, or it ends with the step's error |
| ProcessingService.RunSteps | src/services/ProcessingService.js:18-43 | the loop computes `ExecuteSteps` and logs its rows |
| ProcessingService.OrdemInicio | src/services/ProcessingService.js:66 | resumption starts after the last logged row's `ordem`, or at 1 |
| ProcessingService.Pending | src/services/ProcessingService.js:70-71 | the steps still to run are stored steps at or after the starting `ordem` |
| ProcessingService.PendingMembers | src/services/ProcessingService.js:71 | a step is still to run exactly when its `ordem` is at or after the start |
| ProcessingService.PendingOfNumbered | src/services/ProcessingService.js:70-71 | for steps numbered from `base`, those still to run are the suffix from the start |
| ProcessingService.ResumePicksUpAfterLastRow | src/services/ProcessingService.js:64-71 | after a run of steps numbered 1..n, resuming runs exactly the steps that logged no row |
| ProcessingService.UnawaitedResultsAreNotSeen | src/services/ProcessingService.js:68 | because the loaded results are a pending promise, a resumed step renders `{{a}}` as empty where the loaded results would give `x` |
| ProcessingService.DisplayMissingA | src/services/ProcessingService.js:113 | `a` is not inherited from `Object.prototype`, so an empty context renders it as the empty string |
| ProcessingService.StepRenders | src/services/ProcessingService.js:20-21 | with no parameters, a step dispatches its content rendered against the context |
| ProcessingService.RenderBare | src/services/ProcessingService.js:113 | a bare placeholder renders as its trimmed key's display |
| ProcessingService.NoParametros | src/services/ProcessingService.js:104-110 | no parameters leave the context as the substitutions |
| ProcessingService.Resume | src/services/ProcessingService.js:52-102 | an unknown request logs `erro`; a `concluido` one is left untouched; otherwise the steps after the last logged row run from an empty context, with the same logging and status moves as `process` |
| ProcessingService.ResumeFound | src/services/ProcessingService.js:62-97 | for a stored request past the `concluido` check: `em_progresso`, the stored steps from `ProcessingService.OrdemInicio` on from an empty context, then `concluido` with the context or `erro`, with one result row per completed step |
| ProcessingService.RunPendingSteps | src/services/ProcessingService.js:70-95 | the loop skips the steps before the start and computes `ExecuteSteps` on the rest |
| ProcessingService.PendingStep | src/services/ProcessingService.js:71 | a step before the start is skipped, and one at or after it is the next to run |
| SolicitacaoController.Column | src/controllers/SolicitacaoController.js:707-713 | a value reaches the database as absent exactly when it is undefined or `null`, and a string reaches it as itself |
| SolicitacaoController.ReadStep | src/controllers/SolicitacaoController.js:705-723 | a posted step is stored exactly when it is not `null` and its parameter list has no `null`, with one row per parameter |
| SolicitacaoController.ReadAll | src/controllers/SolicitacaoController.js:705-724 | reading a whole array in order gives one value per element |
| SolicitacaoController.ReadSteps | src/controllers/SolicitacaoController.js:705-724 | a fully stored prompt list has one step per posted item |
| SolicitacaoController.ReadAllSucceeds | src/controllers/SolicitacaoController.js:705-724 | the whole list is stored exactly when every item can be |
| SolicitacaoController.ReadAllAt | src/controllers/SolicitacaoController.js:705-724 | the i-th stored step is the i-th item read |
| SolicitacaoController.ReadAllPrefix | src/controllers/SolicitacaoController.js:705-724 | if the whole list can be stored, so can every prefix |
| SolicitacaoController.UnreadPrefixFailsAll | src/controllers/SolicitacaoController.js:705-724 | a prefix that cannot be read makes the whole list fail |
| SolicitacaoController.FailedReadFailsAll | src/controllers/SolicitacaoController.js:705-724 | one item that throws makes the whole list fail |
| SolicitacaoController.FirstFailure | src/controllers/SolicitacaoController.js:705-724 | the position of the first item that throws lies within the list, or is its length when none does |
| SolicitacaoController.FirstFailureLeast | src/controllers/SolicitacaoController.js:705-724 | every item before `FirstFailure` is read, and the item at it throws |
| SolicitacaoController.FirstFailureStops | src/controllers/SolicitacaoController.js:705-724 | the prefix ending with the first failing item cannot be read |
| SolicitacaoController.FirstFailureReads | src/controllers/SolicitacaoController.js:705-724 | the list fails exactly when some item throws, and the items before the first such one read as `ReadBeforeFailure` |
| SolicitacaoController.ReadBeforeFailureAt | src/controllers/SolicitacaoController.js:705-724 | when the loop stops at item `index`, that item is the first failing one and what was read before it is `ReadBeforeFailure` |
| SolicitacaoController.NewPrompts | src/controllers/SolicitacaoController.js:705-717 | the i-th posted step becomes a row with the next id and `ordem` i+1 |
| SolicitacaoController.ParamRows | src/controllers/SolicitacaoController.js:719-722 | each parameter becomes a row of its prompt, in order |
| SolicitacaoController.NewParametros | src/controllers/SolicitacaoController.js:719-722 | every new parameter row belongs to one of the new prompts |
| SolicitacaoController.FirstNull | src/controllers/SolicitacaoController.js:719-723 | the position of the first `null` parameter, or the list's length: every entry before it is not `null` |
| SolicitacaoController.FirstNullAt | src/controllers/SolicitacaoController.js:719-723 | a `null` entry with none before it is the first `null` |
| SolicitacaoController.StoredStepOfRead | src/controllers/SolicitacaoController.js:707-723 | for an item that can be read, what its iteration stores is the step read |
| SolicitacaoController.ElementPrompts | src/controllers/SolicitacaoController.js:707-717 | an item's iteration inserts at most one prompt row, with the next id and `ordem` index+1 |
| SolicitacaoController.ElementParametros | src/controllers/SolicitacaoController.js:719-722 | an item's parameter rows all belong to its prompt, and a `null` item has none |
| SolicitacaoController.InsertParametros | src/controllers/SolicitacaoController.js:719-723 | the loop stores exactly the parameters before the first `null` entry, in order, and fails exactly when there is one |
| SolicitacaoController.InsertStep | src/controllers/SolicitacaoController.js:707-723 | one iteration stores nothing for a `null` item; otherwise its prompt row with the next id and then the parameter rows before the first `null` entry; it fails exactly when the item cannot be read |
| SolicitacaoController.InsertPrompts | src/controllers/SolicitacaoController.js:705-724 | the loop stores the steps and their parameters in posted order, and fails exactly when an item cannot be read; on failure the tables hold exactly the rows of the items before the first failing one, then what that item stored before it threw, and the next prompt id follows them |
| SolicitacaoController.FailureStored | src/controllers/SolicitacaoController.js:705-724 | the tables when the loop stops at item `index` are those `StoredUpToFailure` describes |
| SolicitacaoController.NewPromptsOrdem | src/controllers/SolicitacaoController.js:712 | the new prompt rows have `ordem` between 1 and the number of steps |
| SolicitacaoController.NoLaterRowStored | src/controllers/SolicitacaoController.js:705-724 | after a failure no row of a later item is stored: new prompt rows have `ordem` at most the failing position + 1, new parameter rows belong to the prompts up to the failing item's, and the next prompt id is past them |
| SolicitacaoController.ReadAllNext | src/controllers/SolicitacaoController.js:705 | reading one more item extends the steps read, or fails when either part fails |
| SolicitacaoController.InsertNext | src/controllers/SolicitacaoController.js:706-723 | one iteration grows the rows by those of item `index`, or fails exactly when that item cannot be read, in which case the whole list cannot be and the tables hold the earlier items' rows followed by what the failing item stored |
| SolicitacaoController.CreatedStepsInPostedOrder | src/controllers/SolicitacaoController.js:712 | the new request's steps, read back in `ordem` order, are the posted steps in posted order |
| SolicitacaoController.CreatedStepParameters | src/controllers/SolicitacaoController.js:719-722 | each new step reads back exactly its own parameters |
| SolicitacaoController.OwnParameters | src/controllers/SolicitacaoController.js:719-722 | among the new rows, each step's parameters are its own |
| SolicitacaoController.Create | src/controllers/SolicitacaoController.js:689-732 | a missing or non-array `prompts` gives 400 and changes nothing; otherwise the request is created and the outcome is that of `CreateFromArray` |
| SolicitacaoController.CreateFromArray | src/controllers/SolicitacaoController.js:703-731 | a stored list answers 202, stores every step's rows and runs the pipeline over them, logging its results and concluding the request; an item that cannot be read answers 500, leaves the request created, stores exactly the rows of the items before the first failing one and what that item stored before it threw, and writes no status or result |
| SolicitacaoController.InsertThenProcess | src/controllers/SolicitacaoController.js:705-731 | after `createSolicitacao`, the inserts and then the 500 answer or the 202 answer and the pipeline give exactly the tables and answer of `CreateFromArray` above |
| SolicitacaoController.AcceptedCreate | src/controllers/SolicitacaoController.js:726-731 | the tables after every step was stored and the pipeline ran are those of a 202 answer |
| SolicitacaoController.StartPipeline | src/controllers/SolicitacaoController.js:726-727 | the pipeline runs the posted steps in posted order, with their own parameters |
| SolicitacaoController.GetProgress | src/controllers/SolicitacaoController.js:781-800 | 404 exactly for an unknown request; otherwise 200 with its status and its steps in `ordem` order |
| SolicitacaoController.GetResultado | src/controllers/SolicitacaoController.js:843-857 | 404 exactly for an unknown request; otherwise 200 with its result, or the empty object, which the text `'{}'` stands for since a stored result is its JSON value, when it has none |
| SolicitacaoController.ResultadoBody | src/controllers/SolicitacaoController.js:852 | the body of a found request: its stored context, or the empty object that `'{}'` stands for when none is stored |
| SolicitacaoController.ResultadoAfterRun | src/controllers/SolicitacaoController.js:852 | after a completed run the result is the final context; after a failed run it is what it was before |
| SolicitacaoController.ResumeRequest | src/controllers/SolicitacaoController.js:891-911 | 404 for an unknown request and 400 for a `concluido` one, both changing nothing; otherwise the pipeline resumes and the answer is 202 |
| Scan.Span | src/engines/CURLIntegration.js:48 | a greedy run ends at the first character outside the class |
| Scan.SpanUnique | src/engines/CURLIntegration.js:48 | a run's end is fixed by its start |
| Scan.First | src/engines/CURLIntegration.js:43 | a match without the `g` flag is at the leftmost position where the pattern matches, and there is none exactly when it matches nowhere |
| Scan.FirstIs | src/engines/CURLIntegration.js:43 | the match is at i when the pattern matches there and at no earlier position |
| Scan.IncludesSpec | src/engines/CURLIntegration.js:101 | `includes` holds exactly when the text occurs at some position |
| CurlIntegration.ArgAt | src/engines/CURLIntegration.js:55 | an argument is taken only after at least one white-space character, and ends inside the command |
| CurlIntegration.MethodOf | src/engines/CURLIntegration.js:42-44 | `config.method`; `CurlIntegration.MethodDefault`, `CurlIntegration.MethodFirstWord` and `CurlIntegration.MethodLowercase` state its value |
| CurlIntegration.UrlAt | src/engines/CURLIntegration.js:48 | the URL pattern tried at one position; `CurlIntegration.UrlShape` states when it matches and what it captures |
| CurlIntegration.UrlOf | src/engines/CURLIntegration.js:48-53 | `config.url`, or none when nothing matches; `CurlIntegration.UrlOfSpec` states that it is the leftmost match |
| CurlIntegration.HeaderAt | src/engines/CURLIntegration.js:55 | the `-H` pattern tried at one position; `CurlIntegration.ArgShape` states what it captures |
| CurlIntegration.CleanHeader | src/engines/CURLIntegration.js:57 | the two `replace` calls on a header match; `CurlIntegration.HeaderArgument` states that they leave exactly the captured argument |
| CurlIntegration.SplitHeader | src/engines/CURLIntegration.js:58-59 | `split(/:\s*/)` and the two `trim()`s; `CurlIntegration.SplitNeedsColon` and `CurlIntegration.SplitAtFirstColon` state the key and value |
| CurlIntegration.HeaderWrite | src/engines/CURLIntegration.js:56-59 | the assignment one header match makes, or the throw of a header without a colon |
| CurlIntegration.DataAt | src/engines/CURLIntegration.js:64 | the `--data` pattern tried at one position; `CurlIntegration.ArgShape` states what it captures |
| CurlIntegration.DataArg | src/engines/CURLIntegration.js:64 | the captured body argument; `CurlIntegration.DataArgSpec` states that it is the leftmost match |
| CurlIntegration.DataOf | src/engines/CURLIntegration.js:64-71 | `config.data`; `CurlIntegration.DataEncodedOnlyForFormType` states when it is URL-encoded |
| CurlIntegration.AuthAt | src/engines/CURLIntegration.js:92 | the `-u` pattern tried at one position; `CurlIntegration.AuthShape` states what it captures |
| CurlIntegration.AuthOf | src/engines/CURLIntegration.js:92-98 | `config.auth`; `CurlIntegration.AuthOfSpec` states that it is the leftmost match, or absent |
| CurlIntegration.Redirects | src/engines/CURLIntegration.js:101 | `config.maxRedirects`; `CurlIntegration.RedirectsIffFlag` states its value |
| CurlIntegration.CurlConfigOf | src/engines/CURLIntegration.js:37-104 | the configuration `parseCurlCommand` returns, or what it throws; `CurlIntegration.ParseErrors`, `CurlIntegration.HeadersLastWins` and the field lemmas above state its parts, and `CurlIntegration.ParseCurlCommand` computes it |
| CurlIntegration.HeaderMatches | src/engines/CURLIntegration.js:55 | every global match of the `-H` pattern starts with `-H` |
| CurlIntegration.Writes | src/engines/CURLIntegration.js:56-60 | each header match becomes one key/value assignment, in order |
| CurlIntegration.WriteEach | src/engines/CURLIntegration.js:56-60 | the `forEach` over the headers completes exactly when every header splits, and then gives the last-write-wins map of the assignments without `__proto__`, whose assignment the inherited accessor ignores |
| CurlIntegration.ParseCurlCommand | src/engines/CURLIntegration.js:37-104 | the parser computes `CurlConfigOf` |
| CurlIntegration.Process | src/engines/CURLIntegration.js:12-29 | a parse error is rethrown without sending; otherwise the parsed configuration is sent and its outcome returned |
| CurlIntegration.MethodDefault | src/engines/CURLIntegration.js:42-44 | without `-X` the method is `get` |
| CurlIntegration.MethodFirstWord | src/engines/CURLIntegration.js:42-43 | the method is the lowercased word after the first `-X` that has one |
| CurlIntegration.MethodLowercase | src/engines/CURLIntegration.js:43 | the method holds no upper-case letter |
| CurlIntegration.UrlOfSpec | src/engines/CURLIntegration.js:48-50 | the URL is the leftmost candidate, and there is none exactly when no position holds one |
| CurlIntegration.UrlShape | src/engines/CURLIntegration.js:48 | a URL is found at j exactly when `https://` or `http://` followed by a URL character starts there; it occurs there, starts with its scheme and has no white space or quote |
| CurlIntegration.UrlFromShape | src/engines/CURLIntegration.js:48 | after a scheme a URL exists exactly when a URL character follows, and it starts with that scheme |
| CurlIntegration.DataArgSpec | src/engines/CURLIntegration.js:64 | the body is the leftmost `--data` match, and there is none exactly when none matches |
| CurlIntegration.AuthOfSpec | src/engines/CURLIntegration.js:92 | the credentials are the leftmost `-u` match, and there are none exactly when none matches |
| CurlIntegration.AuthShape | src/engines/CURLIntegration.js:92-97 | the user name is non-empty and has no colon; the password is non-empty and has no space |
| CurlIntegration.ArgShape | src/engines/CURLIntegration.js:55 | a captured argument is non-empty and holds no quote |
| CurlIntegration.ParseErrors | src/engines/CURLIntegration.js:48-60 | parsing fails with `URL não encontrada` exactly when there is no URL; any other failure is a header without a colon, whose missing value throws on `trim` |
| CurlIntegration.SplitNeedsColon | src/engines/CURLIntegration.js:58 | a header splits into key and value exactly when it contains a colon |
| CurlIntegration.SplitAtFirstColon | src/engines/CURLIntegration.js:58-59 | `key:value` followed by nothing or by another colon gives the trimmed key and the trimmed value; the value stops at a second colon |
| CurlIntegration.HeaderArgument | src/engines/CURLIntegration.js:57 | stripping `-H`, the white space and the quotes from a match leaves exactly the captured argument |
| CurlIntegration.HeadersLastWins | src/engines/CURLIntegration.js:55-60 | a header is present exactly when some `-H` names it and its name is not `__proto__`, and the last one naming it gives its value |
| CurlIntegration.DataEncodedOnlyForFormType | src/engines/CURLIntegration.js:64-71 | the body is URL-encoded exactly when the last `Content-Type` header is `application/x-www-form-urlencoded`, and stored raw otherwise |
| CurlIntegration.RedirectsIffFlag | src/engines/CURLIntegration.js:101 | `maxRedirects` is 5 exactly when `-L` occurs anywhere in the command, and absent otherwise |
| JsonFence.FenceSpec | src/engines/OpenAIIntegration.js:99-102 | the block used is the one at the first opening tag that has a closing fence, and there is none exactly when no tag has one |
| JsonFence.FenceAt | src/engines/OpenAIIntegration.js:99-100 | the fenced-block pattern tried at one position: the lazy group up to the first closing fence |
| JsonFence.Fence | src/engines/OpenAIIntegration.js:99-100 | the group of the leftmost match; `JsonFence.FenceSpec` states that it comes from the first opening tag that has a closing fence |
| JsonFence.FencedText | src/engines/OpenAIIntegration.js:102 | `match && match[1]`: the group when it is not empty; `JsonFence.FencedTextIsTrimmed` states that it is already trimmed |
| JsonFence.FenceIsTrimmed | src/engines/OpenAIIntegration.js:99-105 | the lazy group never starts or ends with white space, so the `trim()` after it changes nothing |
| JsonFence.FencedTextIsTrimmed | src/engines/GeminiIntegration.js:47-53 | the same for the text both adapters parse |
| JsonFence.FenceOfBlock | src/engines/OpenAIIntegration.js:99-102 | a block holding text without back-quotes and without white space at its ends yields that text when nothing fenced comes before it |
| ChatReply.CompletionText | src/engines/OpenAIIntegration.js:82 | a chat completion yields its first choice's content, trimmed |
| ChatReply.ReplyText | src/engines/OpenAIIntegration.js:82 | `data.choices[0].message.content.trim()`, or the TypeError reading it throws; `ChatReply.CompletionText`, `ChatReply.ReplyTextErrors` and `ChatReply.ReplyTextNeedsChoices` state its cases |
| ChatReply.ReplyTextErrors | src/engines/GeminiIntegration.js:30 | every failure to read `choices[0].message.content` as a string is a TypeError |
| ChatReply.ReplyTextNeedsChoices | src/engines/OpenAIIntegration.js:82 | a body without a non-empty `choices` list throws |
| OpenAIIntegration.FencedBlockParsed | src/engines/OpenAIIntegration.js:102-112 | with a fenced block, its text is parsed, and a parse failure gives `null` |
| OpenAIIntegration.ExtrairJson | src/engines/OpenAIIntegration.js:93-120 | `extrairJSON`: the first fenced block parsed or `null`, else the whole text parsed or the text itself; `OpenAIIntegration.FencedBlockParsed`, `OpenAIIntegration.UnfencedTextParsed` and `OpenAIIntegration.FirstBlockParsed` state its cases |
| OpenAIIntegration.UnfencedTextParsed | src/engines/OpenAIIntegration.js:113-119 | without a fenced block the whole text is parsed, and a parse failure gives the text itself |
| OpenAIIntegration.FirstBlockParsed | src/engines/OpenAIIntegration.js:99-112 | only the first fenced block is parsed, whatever follows it |
| OpenAIIntegration.BuildContent | src/engines/OpenAIIntegration.js:18-38 | the content list starts with the text item and gets the image pushed when `imageUrl` is truthy |
| OpenAIIntegration.ContentOf | src/engines/OpenAIIntegration.js:18-38 | the user message's content; `OpenAIIntegration.ContentShape` states its shape and `OpenAIIntegration.BuildContent` builds it by a push |
| OpenAIIntegration.MaxTokens | src/engines/OpenAIIntegration.js:44 | `modelParameters.max_tokens \|\| 4096`; `OpenAIIntegration.DefaultRequest` and `OpenAIIntegration.RequestFromParameters` state its value |
| OpenAIIntegration.RequestOf | src/engines/OpenAIIntegration.js:8-56 | the request posted, or the throw before posting; `OpenAIIntegration.MissingKeyThrowsFirst`, `OpenAIIntegration.NullParametersThrow`, `OpenAIIntegration.DefaultRequest` and `OpenAIIntegration.RequestFromParameters` state it |
| OpenAIIntegration.Respond | src/engines/OpenAIIntegration.js:81-85 | a reply's outcome: a status other than 200 throws, otherwise the trimmed text goes through `extrairJSON` |
| OpenAIIntegration.ProcessOf | src/engines/OpenAIIntegration.js:5-90 | `process`: request, post and reply; `OpenAIIntegration.PostedRequestDecides` states how the reply decides the outcome |
| OpenAIIntegration.ContentShape | src/engines/OpenAIIntegration.js:18-38 | the text item comes first; an image item follows exactly when `imageUrl` is truthy, and carries it |
| OpenAIIntegration.Process | src/engines/OpenAIIntegration.js:5-90 | the adapter computes `ProcessOf` |
| OpenAIIntegration.MissingKeyThrowsFirst | src/engines/OpenAIIntegration.js:8-12 | a missing or empty key throws before a request is built or posted |
| OpenAIIntegration.NullParametersThrow | src/engines/OpenAIIntegration.js:5-31 | a `null` parameter object throws a TypeError (only undefined defaults to `{}`) |
| OpenAIIntegration.DefaultRequest | src/engines/OpenAIIntegration.js:41-56 | without parameters the request holds the prompt alone and asks for 4096 tokens |
| OpenAIIntegration.RequestFromParameters | src/engines/OpenAIIntegration.js:31-56 | the key goes into the bearer header; the image is attached exactly when `imageUrl` is truthy; `max_tokens` is used exactly when truthy, and 4096 otherwise |
| OpenAIIntegration.PostedRequestDecides | src/engines/OpenAIIntegration.js:51-89 | a client error is rethrown; a status other than 200 throws; a 200 reply's text goes through `extrairJSON` |
| GeminiIntegration.FencedBlockParsed | src/engines/GeminiIntegration.js:50-60 | with a fenced block, its text is parsed, and a parse failure gives `null` |
| GeminiIntegration.ExtrairJson | src/engines/GeminiIntegration.js:41-64 | the throwing `extrairJSON`; `GeminiIntegration.FencedBlockParsed`, `GeminiIntegration.UnfencedParseFailureThrows` and `GeminiIntegration.AgreesWithOpenAI` state its cases |
| GeminiIntegration.UnfencedParseFailureThrows | src/engines/GeminiIntegration.js:61-63 | without a fenced block, text that does not parse throws |
| GeminiIntegration.AgreesWithOpenAI | src/engines/GeminiIntegration.js:41-64 | the two extractions agree except on unfenced text that does not parse, which this one rejects and the OpenAI one returns as a string |
| GeminiIntegration.ReplyDecides | src/engines/GeminiIntegration.js:7-37 | a client error is rethrown; a status other than 200 throws; a 200 reply's text is extracted |
| GeminiIntegration.RequestOf | src/engines/GeminiIntegration.js:7-27 | the request posted: model, the fixed system message then the prompt, `max_tokens` and the key from the environment |
| GeminiIntegration.Process | src/engines/GeminiIntegration.js:5-38 | `process`; `GeminiIntegration.ReplyDecides` and `GeminiIntegration.SuccessNeeds200` state its outcome |
| GeminiIntegration.SuccessNeeds200 | src/engines/GeminiIntegration.js:29-33 | a result comes only from a 200 reply |
| Base64.Symbol | src/engines/FreePikTextToImageIntegration.js:43 | no symbol of the base64 alphabet is `=` or `,` |
| Base64.Group | src/engines/FreePikTextToImageIntegration.js:43 | three bytes become four symbols |
| Base64.Encode | src/engines/FreePikTextToImageIntegration.js:43 | `Buffer.toString('base64')` per section 4 of RFC 4648; `Base64.EncodeShape` states its length, alphabet and padding |
| Base64.Count | src/engines/FreePikTextToImageIntegration.js:77 | how often a character occurs, as `match(/=/g).length` counts `=` |
| Base64.EncodeShape | src/engines/FreePikTextToImageIntegration.js:43 | the encoding of n bytes has 4⌈n/3⌉ characters, no comma, and as many `=` as the final padding, all at the end |
| Base64.GroupsLessPadding | src/engines/FreePikTextToImageIntegration.js:78 | three bytes per started group, less the padding, is n |
| FreePikTextToImage.Parameters | src/engines/FreePikTextToImageIntegration.js:15 | falsy parameters are replaced by `{}`, so the parameter reads never throw |
| FreePikTextToImage.OrDefault | src/engines/FreePikTextToImageIntegration.js:21-28 | `modelParameters.<name> ? modelParameters.<name> : default` on a non-null object |
| FreePikTextToImage.PayloadOf | src/engines/FreePikTextToImageIntegration.js:15-29 | the payload `process` posts; `FreePikTextToImage.DefaultsWithoutParameters`, `FreePikTextToImage.SnakeCaseIgnored`, `FreePikTextToImage.ParameterKept` and `FreePikTextToImage.ZeroSeedDefaults` state its fields |
| FreePikTextToImage.Defaults | src/engines/FreePikTextToImageIntegration.js:19-29 | the payload's default fields with the prompt copied |
| FreePikTextToImage.DefaultsWithoutParameters | src/engines/FreePikTextToImageIntegration.js:15-29 | missing or falsy parameters give guidance 1, seed -1, one image, size `square_1_1`, empty negative prompt and styling, and the prompt unchanged |
| FreePikTextToImage.SnakeCaseIgnored | src/engines/FreePikTextToImageIntegration.js:21-28 | parameters given only under other names, such as the payload's own `guidance_scale`, are not read and the defaults apply |
| FreePikTextToImage.ParameterKept | src/engines/FreePikTextToImageIntegration.js:20-23 | the prompt is copied; a truthy `seed` or `guidanceScale` is used, and a falsy one gives the default |
| FreePikTextToImage.ZeroSeedDefaults | src/engines/FreePikTextToImageIntegration.js:23 | a seed of 0 is replaced by -1 |
| FreePikTextToImage.AfterLastComma | src/engines/FreePikTextToImageIntegration.js:76 | `split(',').pop()` is the comma-free suffix after the last comma, or the whole text |
| FreePikTextToImage.CalculateBase64Size | src/engines/FreePikTextToImageIntegration.js:75-79 | `calculateBase64Size`; `FreePikTextToImage.SizeOfGroups`, `FreePikTextToImage.EncodedSize` and `FreePikTextToImage.DataUrlSize` state its value |
| FreePikTextToImage.CommaFreeTakenWhole | src/engines/FreePikTextToImageIntegration.js:76 | text without a comma is kept whole |
| FreePikTextToImage.HeaderDropped | src/engines/FreePikTextToImageIntegration.js:76 | everything up to and including the last comma is dropped |
| FreePikTextToImage.SizeOfGroups | src/engines/FreePikTextToImageIntegration.js:77-78 | comma-free text of 4k characters, p of them `=`, gives 3k − p |
| FreePikTextToImage.EncodedSize | src/engines/FreePikTextToImageIntegration.js:75-79 | on the base64 encoding of n bytes the size is n |
| FreePikTextToImage.DataUrlSize | src/engines/FreePikTextToImageIntegration.js:75-79 | behind a `data:…,` header the size is still n |
| FreePikTextToImage.ReplyDecides | src/engines/FreePikTextToImageIntegration.js:35-71 | a client error is rethrown; a status other than 200 throws; a 200 reply's bytes are saved as base64, whose computed size is the number of bytes received |
| FreePikTextToImage.Process | src/engines/FreePikTextToImageIntegration.js:13-72 | `process`; `FreePikTextToImage.ReplyDecides` states how the reply decides the outcome |

## Left out

- **I/O as parameters.** The database, HTTP and the engines are not modelled as I/O:
  - the MySQL pool is the in-memory `Store.Database`;
  - `axios` is a function parameter, and so are the engines' `process` functions, `JSON.parse`,
    `qs.stringify` and the image repository's `createImage`.
- **Console logging** has no effect on the model.
- **Scheduling headers.** `create` reads the `x-cron-*` headers and passes them to
  `insertPrompt` as extra arguments (src/controllers/SolicitacaoController.js:714-716).
  `insertPrompt` takes six parameters and its `INSERT` has no scheduling columns
  (src/data/PromptRepository.js:14-22), so nothing of them is stored. The model drops them.
- **Asynchrony.** After the 202 response, `create` is modelled as if `process` ran to
  completion before the next request. Interleaving of concurrent requests is not modelled.
- **`uuidv4`.** The fresh identifier is a parameter, and its freshness is a precondition of
  `SolicitacaoController.Create`.
- **Repositories not in this model.**
  - `SolicitacaoRepository`, `ParametroRepository` and `PromptResultadoRepository`: their
    behaviour is taken from how the handlers and the engine use them. A new request starts in
    a "created" status that the handlers report as is.
  - `getUltimoPromptResultado` returns the last result row inserted for the request, carrying
    its step's `ordem`.
  - `Store.Database.UpdateSolicitacaoStatus`: an update that passes only a status keeps the
    request's `resultado_dados`. `SolicitacaoController.ResultadoAfterRun` rests on this.
- **JSON.** Numbers are integers; floating point is not modelled.
  - Object entries keep insertion order. JavaScript's ordering of integer-like keys first is
    not modelled.
  - A stored result is the JSON value itself, taking `JSON.parse(JSON.stringify(v))` as `v`.
- Js.ToLower: only ASCII letters are lowercased. Unicode case mapping is not modelled.
- Templates.PrepareSubstituicoes: a parameter named `__proto__` goes through JavaScript's
  `__proto__` setter on the copy `substituicoes` and creates no binding. Its value is a string
  or NULL. A string is ignored. A NULL makes the copy prototype-less, so every name it would
  inherit from `Object.prototype` (`{{toString}}`, `{{constructor}}`, ...) then renders `''`
  rather than the text `Js.InheritedText` gives. The model binds `__proto__` like any other
  name and keeps `Object.prototype` behind the table.
- Merge.MergeInto: a non-array result entry named `__proto__` goes through the same setter on
  `resultadoGlobal`. An object or null value sets the context's prototype and any other value
  is ignored; in every case no own `__proto__` binding appears. Nothing reads that prototype,
  since the spread into `substituicoes` and `JSON.stringify` copy own properties only. The
  model binds `__proto__` like any other name, so the binding reaches the stored result and
  the substitution table.
- Merge.Entries: `JSON.parse` never yields an object with two entries of the same name. The
  model's objects may, and `Entries` then gives every entry, so a later scalar entry does not
  undo the `key.index` names written by an earlier array entry of that name.
- SolicitacaoController.Column: the driver's conversion of a posted value for a text column
  (`pool.query` with `?` placeholders, src/data/PromptRepository.js:26) is modelled as
  JavaScript's `String(v)`, which holds for strings and numbers. A boolean reaches MySQL as
  `true`/`false` and is stored as `1`/`0`, where the model stores `"true"`/`"false"`. An array
  or object expands into several values or into `` `k` = 'v' `` SQL, so the insert throws and
  `create` answers 500 with the earlier rows stored, where the model stores the `String(v)`
  text and answers 202.
- Store.SortByOrdem: the sort is stable, while SQL leaves the order of rows with equal
  `ordem` unspecified. Nothing depends on this, since `create` gives a request's steps
  distinct `ordem` values.
- **cURL.**
  - `CurlIntegration.ParseCurlCommand`: the `-F`/`--form` branch is not modelled, because it
    builds a `FormData` stream from local files.
  - `qs.stringify` is a parameter. Given a string, Node's version returns `''`.
  - `axios(config)` is the `send` parameter of `CurlIntegration.Process`.
  - A header named `__proto__` is dropped, as the inherited accessor ignores a string
    assigned to it (`CurlIntegration.WriteEach`, `CurlIntegration.HeadersLastWins`).
- **Adapters.**
  - `OpenAIIntegration.Process`: the `Content-Type` header and the role/type tags of the
    message are constant and are not part of `ChatRequest`.
  - `FreePikTextToImage.ReplyDecides`: the API key header, the file extension and the FTP
    arguments passed to `createImage` are constants and are not modelled.
  - `calculateBase64Size` is computed in exact reals. JavaScript's double rounding only matters
    above 2^53 characters.
- **The other adapters** (Telegram, WhatsApp, Instagram, Threads, DallE, the inference APIs,
  ElevenLabs, Wordpress, SendEmail, CurlJob and the rest) are thin HTTP wrappers. They appear
  only as the engine parameter of the registries. The copies of `calculateBase64Size` in the
  inference-API and ElevenLabs adapters are the same function.
- **Routes and authentication.** The scheduler tables, `app.js`, the routes and the API-key
  middleware are outside the pipeline.
