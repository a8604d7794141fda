# Multi-controller answering flow, in Dafny

This project models the question-answering core of `tasks/query.py`.
A *controller* is a named search configuration. The metadata maps each
controller id to a record (`index_name`, `name`, `description`,
`prompt_name`). The reserved key `default_index` names the controller used
when a caller picks none.

- **Setup.** `SearchManager` loads this metadata and strips the system prompt.
  It then opens one search client per controller.
- **Answering.** `answer_question` resolves the controller and requests the
  top ten hits. It then does one of three things:
  - echoes a lone snippet that starts with `"Controller"`, which is how
    resolution errors travel;
  - gives a fixed sentence when nothing was found;
  - builds a prompt from the snippets, with optional controller and
    user/session annotations, sends it to the completion provider with a
    150-token budget and strips the reply.
- **Listing.** `get_available_controllers` lists the controllers by display name.

Files:

- `strings.dfy`: module `Strings`. It defines the Python string operations
  the flow uses: `strip` (with Python's whitespace set), `startswith` and
  `"\n".join`. It also defines `split("\n")`, used only as the inverse
  against which the join is proved. `JoinAppend` shows for every list that
  joining keeps each snippet in order. `split("\n")` undoes the join only
  for snippets without newlines: a snippet holding a newline is joined to
  the same text as its two halves.
- `query.dfy`: module `Query`. It holds the class `SearchManager` with its
  constructor and setup loop, and a value `ManagerState` (the manager's
  fields after setup) over which the read-only operations are pure
  functions. Their results are `Result` values: Python's `ValueError`,
  `KeyError` and `TypeError` are modelled as data, not as preconditions.

The search provider is a function parameter `(client, query, top) ->
hits`. The completion provider is a function parameter `(system message,
user message, max_tokens) -> text`. Whether the completion provider is
consulted is stated two ways. `PlanAnswer` returns either a `Reply` or a
`Consult` request. The lemmas also show that off the completion branch the
answer is the same for every provider, and on it the answer changes with
the provider.

Quirks of the code are modelled as written:

- A genuine single snippet that starts with "Controller" is echoed like an
  error (`ControllerLikeSnippetIsEchoed`).
- Line 91 looks the controller up a second time. `AnswerQuestion` proves
  this lookup never fails, because every resolution error has already been
  echoed. The only fault that escapes `answer_question` is a missing default
  controller.
- An empty controller id `""` is falsy in Python and so selects the default
  controller. A metadata key `""` is still listed by
  `get_available_controllers` (`ListedControllersResolve`).
- `get_prompt_name` does not reject `default_index` itself. It fails with a
  `TypeError` (the string stored under that key indexed as a record) where
  `get_search_client` raises the "not supported" `ValueError`.

Two further points about the code:

- The code does not check that `default_index` names a controller: the
  lookup at line 56 raises a `KeyError` that `search_documents` does not
  catch. `AnswerQuestion` states exactly when this happens.
- The listing has one entry fewer than the metadata only when the
  `default_index` key is present. Without it, line 25 falls back to
  `apc-j140-bin-005c` and nothing is dropped (`AvailableControllersCount`).

## Model

| member | source | states |
|---|---|---|
| Query.SearchManager.constructor | tasks/query.py:13-15 | construction yields a valid manager: the given metadata, its default controller, the stripped system prompt and a registry matching the metadata |
| Query.SearchManager.LoadIndexMetadata | tasks/query.py:17-25 | keeps the metadata; the default controller is the `default_index` value, or `apc-j140-bin-005c` when that key is absent |
| Query.SearchManager.SetupClients | tasks/query.py:27-52 | the system prompt is the stripped prompt text; the registry's keys are exactly the metadata keys minus `default_index`, each bound to that controller's `index_name` (loop invariant over the keys still to visit) |
| Query.DefaultIndexOf | tasks/query.py:25 | the default controller is the text stored under `default_index`, or `apc-j140-bin-005c` when that key is absent |
| Query.GetSearchClient | tasks/query.py:54-61 | succeeds exactly when the chosen id (the given one, or the default when none is given) is a controller; `ValueError("Controller id not supported")` exactly when a non-empty id is `default_index` or not a metadata key; `KeyError` exactly when no id is given and the default is not a controller; otherwise the client bound to the chosen controller's index |
| Query.ConfigAt | tasks/query.py:63-66 | reading `metadata[key]` as a record succeeds exactly when the key holds a controller record, and returns that record; an absent key is a `KeyError`, the string under `default_index` a `TypeError` |
| Query.GetPromptName | tasks/query.py:63-66 | succeeds exactly when the chosen id is a controller, with its `prompt_name`; `default_index` gives a `TypeError`, an unknown key a `KeyError` |
| Query.UnsupportedMessage | tasks/query.py:59 | the resolution error text starts with "Controller" and is longer than that prefix |
| Query.ClientFor | tasks/query.py:61 | the registry entry of a controller is the client bound to its `index_name` |
| Query.Contents | tasks/query.py:75 | one string per hit, the hit's `content`, in provider order |
| Query.SearchDocuments | tasks/query.py:71-77 | unsupported id gives `[error text]`; missing default propagates `KeyError`; otherwise the contents of the top-10 hits of the resolved controller's index, in order |
| Query.ControllerLine | tasks/query.py:92 | starts with "\nController: name (", ends with "description)", and has exactly the length of those two parts together, so the text is fixed exactly; what it means inside the prompt is `Query.ControllerAnnotation` |
| Query.ControllerNote | tasks/query.py:89-92 | empty exactly when no id is given; for an id, succeeds exactly when the id holds a controller record, and is then "\nController: name (description)" of that record |
| Query.UserNote | tasks/query.py:94 | non-empty exactly when both user id and session id are truthy, and then "\nUser ID: u\nSession ID: s" |
| Query.UserNoteCarriesIds | tasks/query.py:94 | with both ids present the annotation contains "User ID: u" and "Session ID: s" |
| Query.PromptText | tasks/query.py:96-102 | reproduces the prompt literal character for character: it starts with the context line (snippets, then controller and user annotations), ends with the question and the fixed instruction, and has exactly the length of those two parts together; what the annotations mean inside it is `Query.InfixOfPrompt`, `Query.UserAnnotation` and `Query.ControllerAnnotation` |
| Query.PlanAnswer | tasks/query.py:82-111 | a lone "Controller…" snippet is replied verbatim (checked before emptiness); no snippets give the fixed sentence; otherwise one completion request with the system prompt, 150 tokens and the prompt built from the newline-joined snippets and both annotations |
| Query.AnswerQuestion | tasks/query.py:79-113 | the call faults exactly when no id is given and the default is not a controller, and then with `KeyError(default)`; the second metadata lookup never fails |
| Query.UnsupportedControllerIsEchoed | tasks/query.py:82-83 | for every provider, an unsupported id is answered with its own error text and the completion provider is not consulted |
| Query.ControllerLikeSnippetIsEchoed | tasks/query.py:82-83 | a genuine lone hit starting with "Controller" is returned unchanged without a completion call |
| Query.NoHitsGivesFallback | tasks/query.py:85-86 | no hits give the fixed "I don't have enough information…" sentence without a completion call |
| Query.CompletionAnswer | tasks/query.py:88-113 | on the completion branch the answer is the stripped output of the provider called with the system prompt, the prompt over the joined snippets, the resolved controller's annotation (iff an id was given), the user annotation, and 150 tokens |
| Query.ConsultsExactly | tasks/query.py:80-104 | the completion provider is consulted iff the id resolves and the snippets are neither empty nor a lone "Controller…" string |
| Query.ReplyIgnoresCompletion | tasks/query.py:82-86 | off the completion branch, two different completion providers give the same answer |
| Query.CompletionDecidesAnswer | tasks/query.py:104-113 | on the completion branch, two providers answering "yes" and "no" give different answers |
| Query.InfixOfPrompt | tasks/query.py:96-102 | text inside the controller or user annotation occurs in the composed prompt |
| Query.UserAnnotation | tasks/query.py:94-97 | with both ids the prompt contains "User ID: u" and "Session ID: s"; with either missing the prompt equals the one without user annotation |
| Query.ControllerAnnotation | tasks/query.py:90-97 | with a controller id the prompt contains "Controller: name (description)" of that controller |
| Query.CapitalOfFrance | tasks/query.py:79-113 | the snippet "Paris is the capital of France." with a provider answering "Paris." yields "Paris." |
| Query.AvailableControllers | tasks/query.py:115-121 | keys are exactly the metadata keys other than `default_index`, each mapped to its record's `name` |
| Query.AvailableControllersCount | tasks/query.py:115-121 | the listing never holds `default_index` and has one entry fewer than the metadata exactly when that key is present |
| Query.ListedControllersResolve | tasks/query.py:45-61 | the listing's keys are the registry's keys; each listed non-empty id resolves to its own client; the empty id selects the default |
| Strings.TrimStart | tasks/query.py:113 | drops exactly the longest all-whitespace prefix |
| Strings.TrimEnd | tasks/query.py:113 | drops exactly the longest all-whitespace suffix |
| Strings.Strip | tasks/query.py:37 | the result is a contiguous piece of the input, flanked only by whitespace, and neither starts nor ends with whitespace |
| Strings.StripIdempotent | tasks/query.py:113 | stripping an already stripped text changes nothing |
| Strings.Join | tasks/query.py:88 | the first line opens the joined text and the last closes it; `Strings.JoinAppend` gives the rest of the text for every list |
| Strings.JoinAppend | tasks/query.py:88 | appending a line to the list appends a newline and that line to the joined text, for every list: each snippet appears in order |
| Strings.Split | tasks/query.py:88 | the inverse used for the join: at least one piece, none holding a newline |
| Strings.JoinSplit | tasks/query.py:88 | joining the newline-split pieces of a text gives the text back |
| Strings.SplitJoin | tasks/query.py:88 | splitting the newline-join of newline-free snippets gives back the snippets, in order (snippets holding newlines are not recovered) |

## Left out

- Reading `config/index_metadata_multi.json`, `prompts/system_prompt.md` and the environment variables. The constructor takes the parsed metadata and the prompt text as parameters.
- Construction of the completion client and of the real search clients. The endpoint and key are the same for every search client, so a client is represented by its index name alone. The deployment (model) name is likewise left out.
- The network calls. Search is a function parameter returning hits; completion is a function parameter returning the first choice's content. Provider failures (network, auth, quota, an empty `choices` list) are not modelled.
- Query.SearchManager.constructor: requires the metadata to have the loadable shape (`default_index`, if present, a string; every other key a record with all four fields). Other shapes make `setup_clients` raise at startup or a later lookup raise a `KeyError` or `TypeError`; those lazy failures are not modelled.
- Query.AvailableControllers: returns a `map`, which has no order. Python's dict keeps the metadata's insertion order and the web menu shows the listing in that order; the model states which controllers are listed and their names, not their order.
- Query.SearchManager.SetupClients: visits the metadata keys in an arbitrary order, not Python's dict insertion order; the resulting registry does not depend on the order.
- Hits without a `content` field (a `KeyError` at line 75) are not modelled: a hit always carries its content.
- Ids that are not strings (JSON numbers, booleans) are not modelled. An id is an optional string, and absent and empty behave alike, as in Python.
- The module-level singleton at line 69 is an explicitly constructed object. The read-only operations take its state (`SearchManager.State()`) as a parameter.
- `app.py` (web routing, request parsing, uuid defaults, HTTP status mapping) and `tasks/adx_text_to_sql.py` are not part of this model.
