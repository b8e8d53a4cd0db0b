# pipefy-mcp-server: request and response shaping, in Dafny

pipefy-mcp-server is an MCP server that exposes Pipefy operations as tools. These
operations cover pipes, cards, comments and start forms. Under the tool
registration and the GraphQL transport sits a deterministic layer. This project
models that layer and proves what it promises:

- **Field formatters** (`formatters.dfy`, module `Formatters`):
  - `convert_fields_to_array` turns a map, a list or a scalar into the `FieldValueInput` list.
  - `convert_values_to_camel_case` turns `{field_id, value, operation?}` records into the
    `updateFieldsValues` form. It fails on the first incomplete record.
- **Tool helpers**:
  - In `tool_errors.dfy`, module `ToolErrors`:
    - extracting error strings from an exception;
    - classifying an error by keywords as not-found, permission, invalid-input or fallback,
      for the three comment tools;
    - extracting GraphQL error codes (de-duplicated, in first-occurrence order) and the
      correlation id;
    - the debug suffix;
    - the delete-card error messages.
  - In `tool_helpers.dfy`, module `ToolHelpers`:
    - the public payload builders;
    - the filter that keeps editable field definitions;
    - the filter that restricts user-supplied fields to known definition ids.
- **Card service** (`card_service.dfy`, module `Cards`): `CardService` holds the shared
  GraphQL client. Each operation sends exactly one request of a stated shape and returns
  its outcome unchanged, with one exception. `update_card` picks one of two mutually
  exclusive mutations. In attribute mode it sends only the attributes that were given. In
  field mode (as in `_execute_update_fields_values`), a record that fails formatting
  raises before anything is sent: no request goes out and the `ValueError` text comes back.
- **Pipe service** (`pipe_service.dfy`, module `Pipes`): `get_pipe` and
  `get_start_form_fields`. The second has two empty-result messages and an
  order-preserving `required_only` filter.
- **Comment inputs** (`comment.dfy`, module `Comments`): the validity rules of
  `CommentInput`, `UpdateCommentInput` and `DeleteCommentInput`.

Shared modules:

- `values.dfy` (`Values`) models Python values.
  - A dict is an insertion-ordered list of entries.
  - A lookup finds the first entry with the key.
  - An assignment overwrites in place or appends.
  - Truthiness follows Python.
- `text.dfy` (`Text`) models ASCII case mapping, `strip`, substring search, `join`,
  integer formatting and `str()`.
- `seqs.dfy` (`Seqs`) holds order-preserving filtering and de-duplication.
- `graphql_client.dfy` (`GraphQL`) models the client as a recorder: a `Client` object
  keeps the sequence of requests it was sent. An `endpoint` function (the remote
  server) decides the outcome of the n-th request. `Client.SentOne(req, r)` says
  "exactly one request, `req`, was appended, and `r` is its outcome".

Each source loop is a method with loop invariants, proved equal to a specification
function. These loops are:

- the list branch of `convert_fields_to_array`;
- `convert_values_to_camel_case`;
- `_extract_error_strings`;
- `_filter_editable_field_definitions`;
- `_extract_graphql_error_codes` (both the collection loop and the de-duplication loop);
- the `for code in codes` loop of `map_delete_card_error_to_message`, which returns at its
  first recognised code. `ToolErrors.MapDeleteCardErrorToMessage` has the same early
  return, and is proved equal to `ToolErrors.MapDeleteCardError`, whose search for that
  code is the recursive `ToolErrors.FirstRecognised`.

`_execute_update_card` builds its input with four straight-line `if` statements, and
`Cards.CardService.ExecuteUpdateCard` has the same statements.

The properties are lemmas about those functions.

The comment models bound the length of the text as given: `min_length` and `max_length`
apply to the raw string, and `text_not_blank` then rejects a text whose `strip()` is
empty without replacing the text by its stripped form. So 1000 non-blank characters
with a space around them are refused as too long, and an accepted text keeps its
surrounding whitespace.

## Model

| member | source | states |
|---|---|---|
| Formatters.FieldsFromDict | src/pipefy_mcp/services/pipefy/utils/formatters.py:22-26 | a dict gives a list of the same length; entry i is `{field_id: k_i, field_value: v_i, generated_by_ai: True}` in insertion order |
| Formatters.NormalizedListAt | src/pipefy_mcp/services/pipefy/utils/formatters.py:28-38 | the list loop's result has the input's length, and item i is the i-th input item with the default applied |
| Formatters.FieldsFromList | src/pipefy_mcp/services/pipefy/utils/formatters.py:28-38 | a list gives a list of the same length and order; non-dicts pass unchanged; a dict that already has `generated_by_ai` (even false) is unchanged; other dicts gain `generated_by_ai: True` at the end |
| Formatters.DefaultMarksDict | src/pipefy_mcp/services/pipefy/utils/formatters.py:31-34 | after the default, a dict item always has `generated_by_ai`, and every other key keeps its value |
| Formatters.FieldsFromScalar | src/pipefy_mcp/services/pipefy/utils/formatters.py:40 | a value that is neither a dict nor a list becomes `[value]` when truthy and `[]` otherwise |
| Formatters.FalsyFieldsGiveEmpty | src/pipefy_mcp/services/pipefy/utils/formatters.py:22-40 | `None`, `{}`, `[]`, `""`, `0` and `False` all give `[]` |
| Formatters.ConvertFieldsToArray | src/pipefy_mcp/services/pipefy/utils/formatters.py:22-40 | the method (with the list loop) returns exactly the specified normalised list |
| Formatters.FirstIncompleteIsFirst | src/pipefy_mcp/services/pipefy/utils/formatters.py:62-66 | the scan finds no incomplete item exactly when all items are complete, and otherwise the smallest incomplete index |
| Formatters.FirstIncompleteAt | src/pipefy_mcp/services/pipefy/utils/formatters.py:62-66 | when item k is the first incomplete item, the conversion fails with the error for index k |
| Formatters.CamelCaseSuccess | src/pipefy_mcp/services/pipefy/utils/formatters.py:61-77 | when every item is complete, the result has the same length and item j is the camelCase form of input j |
| Formatters.CamelCaseFailure | src/pipefy_mcp/services/pipefy/utils/formatters.py:62-66 | a failure names the smallest incomplete index; it names `field_id` exactly when that key is the one missing, so `field_id` is checked before `value` |
| Formatters.CamelCaseOkIff | src/pipefy_mcp/services/pipefy/utils/formatters.py:61-77 | conversion succeeds if and only if every item has both `field_id` and `value` |
| Formatters.FieldUpdateEntries | src/pipefy_mcp/services/pipefy/utils/formatters.py:68-75 | an output item has exactly the keys fieldId, value, operation, generatedByAi, in that order; fieldId and value are the inputs' `field_id` and `value`; generatedByAi is True |
| Formatters.OperationNormalised | src/pipefy_mcp/services/pipefy/utils/formatters.py:72 | the operation is always upper case; it is "REPLACE" when absent, and the uppercased string when given as one |
| Formatters.ConvertValuesToCamelCase | src/pipefy_mcp/services/pipefy/utils/formatters.py:61-77 | the method (loop with early exit) returns exactly the specified result or error |
| ToolErrors.ItemMessage | src/pipefy_mcp/tools/pipe_tool_helpers.py:98-104 | a non-empty string item contributes itself; a dict whose `message` is a non-empty string contributes that message; any message contributed is non-empty and is the item itself or its `message` |
| ToolErrors.ExtractErrorStrings | src/pipefy_mcp/tools/pipe_tool_helpers.py:88-106 | the method (with its loop) returns exactly the specified message list |
| ToolErrors.ItemMessagesSources | src/pipefy_mcp/tools/pipe_tool_helpers.py:97-104 | a string is among the item messages exactly when some error item yields it |
| ToolErrors.ErrorStringsShape | src/pipefy_mcp/tools/pipe_tool_helpers.py:88-106 | no extracted message is empty; a non-empty exception text comes first; with empty text only item messages remain; when `errors` is not a list only the text remains |
| ToolErrors.MapCommentLikeError | src/pipefy_mcp/tools/pipe_tool_helpers.py:144-163 | the keyword classifier: the result is always one of the four given messages; which one is stated by the lemmas below |
| ToolErrors.MapAddCardCommentError | src/pipefy_mcp/tools/pipe_tool_helpers.py:166-174 | the classifier with the add-comment messages and the full invalid-input marker list: the result is always one of those four messages |
| ToolErrors.MapUpdateCommentError | src/pipefy_mcp/tools/pipe_tool_helpers.py:177-185 | the classifier with the update-comment messages and the full invalid-input marker list: the result is always one of those four messages |
| ToolErrors.MapDeleteCommentError | src/pipefy_mcp/tools/pipe_tool_helpers.py:188-197 | the classifier with the delete-comment messages and the invalid-input markers without "blank": the result is always one of those four messages |
| ToolErrors.MarkerInMessageDecides | src/pipefy_mcp/tools/pipe_tool_helpers.py:144-163 | a marker found, in any case, in any single error string selects its category, unless a marker of a category checked earlier occurs in the joined haystack |
| ToolErrors.MarkerAcrossMessages | src/pipefy_mcp/tools/pipe_tool_helpers.py:154-158 | the converse fails: the items "not" and "found" hold no not-found marker, yet their space-joined haystack selects the not-found message |
| ToolErrors.CommentErrorIgnoresCase | src/pipefy_mcp/tools/pipe_tool_helpers.py:155 | upper-casing the exception text does not change the mapped message |
| ToolErrors.NotFoundInTextDecides | src/pipefy_mcp/tools/pipe_tool_helpers.py:154-158 | a not-found marker anywhere in the lower-cased exception text selects the not-found message, whatever else the errors say |
| ToolErrors.BlankOnlyInvalidWhenWriting | src/pipefy_mcp/tools/pipe_tool_helpers.py:125-197 | an error saying only "blank" is invalid input for add and update, but the fallback for delete, whose marker list omits "blank" |
| ToolErrors.ExtensionCode | src/pipefy_mcp/tools/pipe_tool_helpers.py:301-309 | an item contributes a code exactly when it is a dict whose `extensions` is a dict whose `code` is a non-empty string, and then contributes that code |
| ToolErrors.ExtensionCodesSources | src/pipefy_mcp/tools/pipe_tool_helpers.py:299-309 | a code is among the extension codes exactly when some error item carries it as a non-empty string under `extensions.code` |
| ToolErrors.MatchAt | src/pipefy_mcp/tools/pipe_tool_helpers.py:314 | a match of the quoted key/value pattern ends after its start, and captures a non-empty run of characters from the capture class |
| ToolErrors.MatchQuotedValue | src/pipefy_mcp/tools/pipe_tool_helpers.py:314 | in the text `{"key": "v"}` the pattern matches at the opening quote and captures exactly v, and does not match at the brace |
| ToolErrors.FindCodesWellFormed | src/pipefy_mcp/tools/pipe_tool_helpers.py:312-315 | every code found in the text is non-empty and made of `A-Z` and `_` |
| ToolErrors.DedupInOrder | src/pipefy_mcp/tools/pipe_tool_helpers.py:317-324 | the seen-set loop computes the order-preserving de-duplication |
| ToolErrors.ExtractGraphqlErrorCodes | src/pipefy_mcp/tools/pipe_tool_helpers.py:295-324 | the method (collection loops, then de-duplication) returns exactly the specified code list |
| ToolErrors.ErrorCodesShape | src/pipefy_mcp/tools/pipe_tool_helpers.py:295-324 | the codes have no duplicates; the extension codes come first; membership matches the collected codes; order is first-occurrence order |
| ToolErrors.FindCodesInQuoted | src/pipefy_mcp/tools/pipe_tool_helpers.py:312-315 | scanning the text `{"code": "X"}` finds X once and nothing else |
| ToolErrors.CodeReadFromText | src/pipefy_mcp/tools/pipe_tool_helpers.py:311-315 | an exception whose text is `{"code": "X"}` yields exactly `[X]` |
| ToolErrors.SearchCorrelationIdFirstMatch | src/pipefy_mcp/tools/pipe_tool_helpers.py:333 | the search returns the capture at the first position where the pattern matches, and nothing exactly when it matches nowhere |
| ToolErrors.CorrelationId | src/pipefy_mcp/tools/pipe_tool_helpers.py:327-336 | the correlation-id extractor: no id for an empty text, and a found id is non-empty and quote-free; its first-match meaning is the next row |
| ToolErrors.CorrelationIdFirstMatch | src/pipefy_mcp/tools/pipe_tool_helpers.py:327-336 | the correlation id is the capture of the first match in the exception text; there is none exactly when the text is empty or has no match |
| ToolErrors.CorrelationIdReadFromText | src/pipefy_mcp/tools/pipe_tool_helpers.py:329-335 | the text `{"correlation_id": "v"}` yields v |
| ToolErrors.WithDebugSuffix | src/pipefy_mcp/tools/pipe_tool_helpers.py:339-354 | the message is unchanged when debug is off or there is nothing to add; otherwise the parts are joined by "; " inside " (debug: ...)" |
| ToolErrors.DebugSuffixOutput | src/pipefy_mcp/tools/pipe_tool_helpers.py:339-354 | the four cases written out: nothing added, codes only, correlation id only, codes then correlation id |
| ToolErrors.MapDeleteCardError | src/pipefy_mcp/tools/pipe_tool_helpers.py:357-387 | an empty code list gives the generic "try again" message, and a recognised first code gives that code's message; the full case split is stated by the lemmas below |
| ToolErrors.FirstRecognisedIsFirst | src/pipefy_mcp/tools/pipe_tool_helpers.py:361-376 | the loop stops at the first recognised code, and finds none exactly when no code is recognised |
| ToolErrors.MapDeleteCardErrorToMessage | src/pipefy_mcp/tools/pipe_tool_helpers.py:357-387 | the loop that returns at the first recognised code, then the messages after it, computes `MapDeleteCardError` |
| ToolErrors.DeleteCardErrorFirstRecognisedWins | src/pipefy_mcp/tools/pipe_tool_helpers.py:357-387 | the first recognised code in list order decides the message; without one, non-empty codes are listed joined by ", ", and an empty list gives the generic "try again" message |
| ToolHelpers.BuildAddCardCommentSuccessPayload | src/pipefy_mcp/tools/pipe_tool_helpers.py:81-85 | a success payload whose comment id is `str(comment_id)` for strings and integers |
| ToolHelpers.BuildAddCardCommentErrorPayload | src/pipefy_mcp/tools/pipe_tool_helpers.py:200-202 | a failure payload carrying the message |
| ToolHelpers.BuildUpdateCommentSuccessPayload | src/pipefy_mcp/tools/pipe_tool_helpers.py:205-209 | a success payload whose comment id is `str(comment_id)` for strings and integers |
| ToolHelpers.BuildUpdateCommentErrorPayload | src/pipefy_mcp/tools/pipe_tool_helpers.py:212-214 | a failure payload carrying the message |
| ToolHelpers.BuildDeleteCommentSuccessPayload | src/pipefy_mcp/tools/pipe_tool_helpers.py:217-219 | a success payload |
| ToolHelpers.BuildDeleteCommentErrorPayload | src/pipefy_mcp/tools/pipe_tool_helpers.py:222-224 | a failure payload carrying the message |
| ToolHelpers.FixedTextWords | src/pipefy_mcp/tools/pipe_tool_helpers.py:237-257 | the fixed parts of the two delete-card messages contain "permanently delete", "confirm=True" and "permanently deleted" |
| ToolHelpers.BuildDeleteCardPreviewPayload | src/pipefy_mcp/tools/pipe_tool_helpers.py:227-242 | a preview is not a success and requires confirmation; it carries the id, title and pipe; its message warns of permanent deletion, names `confirm=True` and mentions the title, id and pipe |
| ToolHelpers.BuildDeleteCardSuccessPayload | src/pipefy_mcp/tools/pipe_tool_helpers.py:245-258 | a success that needs no confirmation; it carries the id, title and pipe; its message says "permanently deleted" and mentions all three |
| ToolHelpers.BuildDeleteCardErrorPayload | src/pipefy_mcp/tools/pipe_tool_helpers.py:261-263 | neither a success nor a preview, and carries the message |
| ToolHelpers.FilterEditableFieldDefinitions | src/pipefy_mcp/tools/pipe_tool_helpers.py:266-278 | the loop (with `continue`) returns exactly the editable definitions |
| ToolHelpers.EditableDefinitionsSpec | src/pipefy_mcp/tools/pipe_tool_helpers.py:266-278 | a definition is kept if and only if it is a dict whose `editable` is absent or truthy; kept definitions appear as often as in the input and in its order |
| ToolHelpers.RestrictGet | src/pipefy_mcp/tools/pipe_tool_helpers.py:288-292 | after restriction a key maps to its original value when it is a known id, and is absent otherwise |
| ToolHelpers.FilterFieldsByDefinitions | src/pipefy_mcp/tools/pipe_tool_helpers.py:281-292 | `_filter_fields_by_definitions`: missing or empty fields give `{}`, and the only failure is `KeyError('id')`, raised only when some definition has no `id`; the kept fields are stated by the next row |
| ToolHelpers.FieldsByDefinitionsSpec | src/pipefy_mcp/tools/pipe_tool_helpers.py:281-292 | missing or empty fields give `{}`; otherwise the result exists if and only if every definition has an `id` (else KeyError), and it is the input restricted to those ids, values unchanged |
| GraphQL.Client.Execute | src/pipefy_mcp/services/pipefy/base_client.py:65-73 | one request, with the variables unchanged, is appended to the log, and the endpoint's outcome is returned unchanged |
| Cards.AttributeInputSpec | src/pipefy_mcp/services/pipefy/card_service.py:185-194 | the `updateCard` input maps `id` to the card id and each attribute to its value exactly when it was given; all other keys are absent |
| Cards.AddAssignees | src/pipefy_mcp/services/pipefy/card_service.py:189-190 | setting `assignee_ids` on the input built so far appends the key, giving the attribute input with assignees |
| Cards.AddLabels | src/pipefy_mcp/services/pipefy/card_service.py:191-192 | setting `label_ids` on the input built so far appends the key, giving the attribute input with labels |
| Cards.AddDueDate | src/pipefy_mcp/services/pipefy/card_service.py:193-194 | setting `due_date` on the input built so far appends the key, giving the attribute input with the due date |
| Cards.CardService.CreateCard | src/pipefy_mcp/services/pipefy/card_service.py:35-38 | exactly one createCard request with `{pipe_id, fields: convert_fields_to_array(fields)}`; the outcome is returned unchanged |
| Cards.CardService.CreateComment | src/pipefy_mcp/services/pipefy/card_service.py:40-43 | exactly one createComment request with `{input: {card_id, text}}` |
| Cards.CardService.UpdateComment | src/pipefy_mcp/services/pipefy/card_service.py:45-48 | exactly one updateComment request with `{input: {id, text}}` |
| Cards.CardService.DeleteComment | src/pipefy_mcp/services/pipefy/card_service.py:50-53 | exactly one deleteComment request with `{input: {id}}` |
| Cards.CardService.DeleteCard | src/pipefy_mcp/services/pipefy/card_service.py:55-58 | exactly one deleteCard request with `{input: {id}}` |
| Cards.CardService.GetCard | src/pipefy_mcp/services/pipefy/card_service.py:60-68 | exactly one getCard request with `{card_id, includeFields}` |
| Cards.CardService.GetCards | src/pipefy_mcp/services/pipefy/card_service.py:70-90 | exactly one getCards request; `search` is `{}` when none is given and otherwise the given search, in the same position; `includeFields` is the flag |
| Cards.CardService.FindCards | src/pipefy_mcp/services/pipefy/card_service.py:92-112 | exactly one findCards request with `{pipeId, search: {fieldId, fieldValue}, includeFields}` |
| Cards.CardService.MoveCardToPhase | src/pipefy_mcp/services/pipefy/card_service.py:114-124 | exactly one moveCardToPhase request with `{input: {card_id, destination_phase_id}}` |
| Cards.CardService.UpdateCardField | src/pipefy_mcp/services/pipefy/card_service.py:126-142 | exactly one updateCardField request with `{input: {card_id, field_id, new_value}}` |
| Cards.CardService.UpdateCard | src/pipefy_mcp/services/pipefy/card_service.py:144-174 | non-empty field updates send only the updateFieldsValues request, or nothing when formatting fails; otherwise only the updateCard request with the given attributes is sent |
| Cards.CardService.ExecuteUpdateCard | src/pipefy_mcp/services/pipefy/card_service.py:176-197 | the step-by-step insertions send exactly `{input: id plus the given attributes}` in one updateCard request |
| Cards.CardService.ExecuteUpdateFieldsValues | src/pipefy_mcp/services/pipefy/card_service.py:199-205 | on successful formatting, one request `{input: {nodeId, values: formatted}}`; on failure no request and the formatting error's message |
| Pipes.PipeService.GetPipe | src/pipefy_mcp/services/pipefy/pipe_service.py:18-21 | exactly one getPipe request with `{pipe_id}` |
| Pipes.PipeService.GetStartFormFields | src/pipefy_mcp/services/pipefy/pipe_service.py:23-60 | exactly one request with `{pipe_id}`; the response is shaped; an exception from the request propagates; a shaping exception is reported |
| Pipes.ShapeStartForm | src/pipefy_mcp/services/pipefy/pipe_service.py:40-60 | a result that is not a dict raises `AttributeError`; without `required_only` only a lookup on a non-dict can fail; a message always comes with an empty field list, and fields returned without a message are truthy; without `required_only` the only message is "no start form fields" |
| Pipes.NoFieldsGiveMessage | src/pipefy_mcp/services/pipefy/pipe_service.py:40-47 | a missing `pipe`, a missing `start_form_fields` or a falsy one gives the "no start form fields configured" message with `[]`, whatever `required_only` is |
| Pipes.RequiredOnlyKeepsRequired | src/pipefy_mcp/services/pipefy/pipe_service.py:50-58 | with `required_only`, the kept fields are exactly those whose `required` is truthy, each as often as in the input and in its order; none left gives the "no required fields" message with `[]` |
| Pipes.AllRequiredKept | src/pipefy_mcp/services/pipefy/pipe_service.py:50-51 | with `required_only`, a list of fields that are all required comes back whole |
| Pipes.WithoutRequiredOnlyUnchanged | src/pipefy_mcp/services/pipefy/pipe_service.py:60 | without `required_only`, existing fields come back unchanged and with no message |
| Pipes.MessageIffNoFields | src/pipefy_mcp/services/pipefy/pipe_service.py:43-60 | a result with a message has `[]` fields; one without has truthy fields; without `required_only`, shaping fails only when the lookup does |
| Pipes.ToValueHasMessageIff | src/pipefy_mcp/services/pipefy/pipe_service.py:43-60 | the returned dict has a `message` key exactly when there is a message, and always carries `start_form_fields` |
| Text.StripEmptyIff | src/pipefy_mcp/models/comment.py:27 | `v.strip() == ""` holds exactly when every character is whitespace |
| Comments.NewCommentInput | src/pipefy_mcp/models/comment.py:8-29 | `CommentInput(...)`: an accepted model has a positive `card_id` and holds the arguments unchanged; a non-positive `card_id` is refused and reported first |
| Comments.NewUpdateCommentInput | src/pipefy_mcp/models/comment.py:32-45 | `UpdateCommentInput(...)`: an accepted model has a positive `comment_id` and holds the arguments unchanged; a non-positive `comment_id` is refused and reported first |
| Comments.NewDeleteCommentInput | src/pipefy_mcp/models/comment.py:48-49 | `DeleteCommentInput(...)`: accepted exactly when `comment_id` is positive, holding it unchanged; otherwise the one issue is `comment_id` not greater than 0 |
| Comments.TextIssuesEmptyIff | src/pipefy_mcp/models/comment.py:17-29 | the text passes if and only if it has 1 to 1000 characters, one of them not whitespace; at most one text issue is reported |
| Comments.CommentInputValidIff | src/pipefy_mcp/models/comment.py:16-29 | a comment input is valid if and only if `card_id > 0` and the text passes; the accepted text is stored untrimmed |
| Comments.CommentIssuesInFieldOrder | src/pipefy_mcp/models/comment.py:16-29 | a refusal reports one or two issues: the card id's first, then the text's |
| Comments.UpdateCommentInputValidIff | src/pipefy_mcp/models/comment.py:32-45 | the same text rules, with `comment_id > 0` |
| Comments.DeleteCommentInputValidIff | src/pipefy_mcp/models/comment.py:48-49 | valid if and only if `comment_id > 0`, and otherwise that single issue |
| Comments.LengthBoundary | src/pipefy_mcp/models/comment.py:17-21 | 1000 non-blank characters are accepted; 1001 are refused as too long |
| Comments.WhitespaceIsBlank | src/pipefy_mcp/models/comment.py:23-29 | text of valid length made only of whitespace is refused as blank, for both create and update |
| Comments.BlankExamples | src/pipefy_mcp/models/comment.py:23-29 | `"   "` and `"\n\t  "` are refused as blank, and `""` as too short |

## Left out

- Transport and authentication (`base_client.py` apart from `execute_query`, `gql.Client`, HTTPX, OAuth2, the `async with` session) are network I/O in a foreign library. The remote server is the `endpoint` function parameter of `GraphQL.Client`.
- `async`/`await` and concurrency: each call is modelled as running to completion.
- The query catalog holds static GraphQL text, so documents are modelled by name (`GraphQL.Document`).
- Not modelled, because they are delegation, registration or configuration with no logic of their own: the facade `client.py`, the MCP tool wiring, `server.py`, `main.py`, the container, settings, prompts and scripts.
- `models/form.py` is not part of this model. It is a wrapper over `pydantic.create_model`.
- `search_pipes` and `get_pipe_members` are not defined in the pipe service modelled here. Their fuzzy matching relies on an external floating-point scorer.
- `UserCancelledError`, `DeleteCardConfirmation` and `FIND_CARDS_EMPTY_MESSAGE` are declarations that the tools use, and they have no behaviour of their own. The TypedDict payloads are datatypes. Their `success` literal becomes the constructor (`Success()`).
- Floating-point values are not in `Values.Value`, so float truthiness and `str()` of a float are not modelled.
- Formatters.OperationNormalised: uppercasing is ASCII-only. Python's `str.upper` also maps non-ASCII letters (and `ß` to `SS`), and the model leaves those characters unchanged.
- ToolErrors.CommentErrorIgnoresCase: states case-insensitivity only for ASCII letters in the exception text. `.lower()` on non-ASCII letters is not modelled.
- Text.StripEmptyIff: whitespace is Python's whitespace within ASCII (space, `\t`–`\r`, `\x1c`–`\x1f`). Unicode whitespace such as U+00A0 is not counted, so all-Unicode-space text counts as non-blank in `Comments.TextIssuesEmptyIff` and `Comments.CommentInputValidIff`.
- ToolErrors.MatchAt: the two regular expressions are hand-written scanners. `\s` is the ASCII whitespace above. A regex engine is not modelled.
- ToolHelpers.BuildAddCardCommentSuccessPayload: the contract pins `str()` for string and integer ids. Other values go through a simplified `repr` that does not reproduce Python's quote selection and escaping inside nested strings.
- ToolHelpers.BuildDeleteCardSuccessPayload: the contract states the words and values the message contains, not the whole sentence. The function body builds the exact sentence of the source.
- ToolHelpers.BuildUpdateCommentSuccessPayload: the contract pins `str()` for string and integer ids. Other values go through the simplified `repr` described for the add-comment payload.
- Formatters.ConvertValuesToCamelCase: the items are dicts (`seq<Entry>`). The source's `"field_id" not in v` also runs on a non-dict item, such as a list or a string, where it tests membership instead, and that case cannot be expressed here.
- Formatters.OperationNormalised: a non-string `operation` is converted with the simplified `repr` of `Text.PyStr` before upper-casing, so its exact Python text is not reproduced.
- ToolHelpers.BuildDeleteCardPreviewPayload: the contract states the words and values the message contains, not the whole sentence. The function body builds the exact sentence of the source.
- ToolHelpers.FieldsByDefinitionsSpec: an unhashable definition `id` (a list or a dict), which raises `TypeError` in Python, is accepted as a set member.
- Pipes.PipeService.GetStartFormFields: an exception raised while shaping is reported by its class name (`AttributeError`, `TypeError`), not its Python message text.
- Comments.CommentInputValidIff: pydantic's lax coercion of inputs (`"5"` to `5`, `True` to `1`) and its error message texts are not modelled. The inputs arrive typed, and an issue is a field name plus a kind.
- `str(exc)` and `getattr(exc, "errors", None)` are the two fields of `GraphQL.Exc`, with `Null` for a missing attribute. How `gql` renders an exception into text is not modelled.
