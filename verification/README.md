# rubin_rag in Dafny

A model of the homegrown rules in the Rubin Observatory's retrieval-augmented
chat assistant (Vera) and its ingestion scripts, with proofs of what those
rules guarantee. The embedding, the vector search, the language model, the
Streamlit widgets and every HTTP call are foreign. Each one is replaced by an
input value, such as the chain's `(answer, context)` result, the search's
`(document, score)` pairs, the status code and body of a Jira request, or the
splitter's output.

The modules follow the repository's files:

- `json.dfy` (`Json`): decoded JSON values, and the Python operations the scripts apply to them (`d[k]`, `d.get(k, default)`, `k in v`, `for x in v`, truthiness). A Python exception is a `Raise` result.
- `documents.dfy` (`Documents`): the LangChain `Document` (text plus metadata), the `source_key` metadata key and the four source names.
- `selection.dfy` (`Selection`): order-preserving selection by a mask of flags. The sidebar and the citation threshold both select this way.
- `session.dfy` (`Session`): the chat message history and the session-state flags, as classes updated in place.
- `layout.py` → `layout.dfy` (`Layout`): the sidebar's source checkboxes and the "new chat" reset.
- `chatbot.py` → `chatbot.dfy` (`Chatbot`): the `where` filter built from the selected sources, the 0.9 × best-score citation threshold, and one turn of `handle_user_input`.
- `streamlit_callback.py` → `streamlit_callback.dfy` (`StreamlitCallback`): the token relay `StreamHandler`. It is a class whose container is a render log.
- `custom_weaviate_vector_store.py` → `vector_store.dfy` (`VectorStore`): score annotation of search hits, and the multi-tenancy default.
- `parse_jira_tickets.py` → `jira_tickets.dfy` (`JiraTickets`): `safe_get`, the `extract_*` helpers, the three cases of `reformat_jira_data`, and the status mapping of `get_jira_issue`.
- `upload_to_weaviate.py` → `upload_to_weaviate.dfy` (`UploadToWeaviate`): CSV handling, metadata normalisation in place, and the 1000-document batches.
- `parse_confluence.py` → `parse_confluence.dfy` (`ParseConfluence`): the `id` → `pageid` rewrite.

Scores are real numbers. The model does not capture IEEE floating-point rounding of `max_score * 0.9`.

The code decides the threshold's edge case: a chunk is cited when `score >= 0.9 * max_score`. So when the best score is negative, no chunk passes, not even the best one, and a single chunk is cited only when its score is not negative. A description of the rule as "a single chunk always passes" holds only for non-negative scores (`Chatbot.SingleChunkShownIff`, `Chatbot.TopChunkShownIff`).

## Model

| member | source | states |
|---|---|---|
| `Session.ChatMessageHistory.AddUserMessage` | python/rubin/rag/chatbot.py:131 | the user's query is appended to the history as a human message; nothing else changes |
| `Session.ChatMessageHistory.AddAiMessage` | python/rubin/rag/chatbot.py:161 | the answer is appended to the history as an AI message |
| `Session.ChatMessageHistory.Clear` | python/rubin/rag/chatbot.py:110-111 | the history is emptied |
| `Session.SessionState.constructor` | python/rubin/rag/app.py:26-27 | a new session has sent no message yet |
| `Layout.SetupSidebar` | python/rubin/rag/layout.py:4-14 | `required_sources` is reset, then rebuilt as the checked subset of the four sources; the old list plays no part |
| `Layout.SelectedSourcesMembership` | python/rubin/rag/layout.py:7-14 | each source is selected if and only if its own checkbox is checked, and nothing outside the four keys is selected |
| `Layout.SelectedSourcesShape` | python/rubin/rag/layout.py:7-14 | the selection has no repeats and at most four entries, and it keeps the fixed order confluence, jira, lsstforum, localdocs |
| `Layout.DefaultSelectsAll` | python/rubin/rag/layout.py:7-14 | with every checkbox at its default (checked), all four keys are selected, in order |
| `Layout.ClearText` | python/rubin/rag/layout.py:36-38 | the history is emptied and `message_sent` becomes false |
| `Chatbot.SubmitText` | python/rubin/rag/chatbot.py:32-34 | submitting sets `message_sent` |
| `Chatbot.Lower` | python/rubin/rag/chatbot.py:136-139 | the lowercased text has the same length and no capital letter; each capital becomes the letter 32 code points above it (its lower-case form), and every other character is unchanged |
| `Chatbot.BuildWhereFilter` | python/rubin/rag/chatbot.py:136-150 | the filter's operator is `Or`, with one `Equal` clause on `source_key` per selected source, in selection order, whose value is that source lowercased |
| `Chatbot.WhereFilterMeaning` | python/rubin/rag/chatbot.py:136-150 | the filter is an `Or` with one `Equal` clause on `source_key` per selected source, in selection order and lowercased; it admits a document if and only if the document's `source_key` equals one of them |
| `Chatbot.EmptySelectionMatchesNothing` | python/rubin/rag/chatbot.py:136-150 | an empty selection gives an empty operand list, which admits no document under the model's reading of the filter (see Left out) |
| `Chatbot.FilterOrderIndependent` | python/rubin/rag/chatbot.py:136-150 | two selections with the same members admit the same documents |
| `Chatbot.LowerFixesLowerCase` | python/rubin/rag/chatbot.py:136-139 | lowercasing leaves a string without capital letters unchanged |
| `Chatbot.SidebarFilterMatches` | python/rubin/rag/chatbot.py:136-150 | with the sidebar's selection, the filter admits exactly the documents tagged with a checked source |
| `Chatbot.ContextScores` | python/rubin/rag/chatbot.py:165-167 | the scores list succeeds if and only if every chunk has a numeric `score`, and it then holds those scores in context order; a chunk without a score raises `KeyError` |
| `Chatbot.MaxScore` | python/rubin/rag/chatbot.py:170 | `max` returns one of the scores, and that score is at least every other score |
| `Chatbot.ThresholdMask` | python/rubin/rag/chatbot.py:169-180 | one flag per chunk; any chunk scoring at least as much as a cited chunk is cited too |
| `Chatbot.ShownSources` | python/rubin/rag/chatbot.py:165-180 | the cited chunks are drawn from the context, at most as many as it has; the citation fails exactly when the score list fails, with its error |
| `Chatbot.ShowSources` | python/rubin/rag/chatbot.py:165-181 | the citation loop cites exactly the chunks the threshold rule selects, in context order, and raises where the score list raises |
| `Chatbot.ShownSourcesExact` | python/rubin/rag/chatbot.py:165-181 | the cited chunks are exactly those whose score is at least 0.9 times the best score, and they appear at increasing positions of the context |
| `Chatbot.EmptyContextShowsNothing` | python/rubin/rag/chatbot.py:169 | an empty context cites nothing |
| `Chatbot.TopChunkShownIff` | python/rubin/rag/chatbot.py:170-180 | a best-scoring chunk is cited if and only if the best score is not negative |
| `Chatbot.NegativeScoresShowNothing` | python/rubin/rag/chatbot.py:170-180 | when every score is negative, no chunk is cited |
| `Chatbot.ThresholdMaskPairwise` | python/rubin/rag/chatbot.py:170-180 | a chunk is cited if and only if its score reaches 0.9 times every score in the context |
| `Chatbot.ScaleInvariant` | python/rubin/rag/chatbot.py:170-180 | multiplying every score by one positive constant changes no citation decision |
| `Chatbot.SingleChunkShownIff` | python/rubin/rag/chatbot.py:169-180 | a lone chunk is cited if and only if its score is not negative |
| `Chatbot.ThresholdExample` | python/rubin/rag/chatbot.py:170-180 | scores 0.95, 0.91, 0.80 and 0.50 cite the first two |
| `Chatbot.HandleUserInput` | python/rubin/rag/chatbot.py:104-181 | without a query nothing is recorded; with one, exactly two messages are appended (the query, then the answer), and the turn sends the sidebar's filter and cites the threshold's chunks |
| `StreamlitCallback.RenderLog` | python/rubin/rag/streamlit_callback.py:57-58 | after each appended token the whole text so far is rendered: render k is the initial text followed by the first k + 1 tokens |
| `StreamlitCallback.Relayed` | python/rubin/rag/streamlit_callback.py:55-58 | the relayed tokens are tokens of the stream, no more of them than there are events |
| `StreamlitCallback.StreamHandler.constructor` | python/rubin/rag/streamlit_callback.py:28-39 | a fresh handler holds the initial text, ignores no run and has rendered nothing |
| `StreamlitCallback.StreamHandler.OnLlmStart` | python/rubin/rag/streamlit_callback.py:42-45 | a run whose first prompt starts with "Human" becomes the ignored run, replacing any earlier one; other runs change nothing; an empty prompt list raises `IndexError` |
| `StreamlitCallback.StreamHandler.OnLlmNewToken` | python/rubin/rag/streamlit_callback.py:47-58 | every token clears the spinner; a token of the ignored run changes neither text nor log; any other token is appended and the new text is rendered |
| `StreamlitCallback.StreamHandler.ReceiveTokens` | python/rubin/rag/streamlit_callback.py:47-58 | over a stream of tokens, the text grows by exactly the relayed tokens in arrival order, and the log gains one full-text render per relayed token |
| `StreamlitCallback.GetStreamlitCallback` | python/rubin/rag/streamlit_callback.py:95-108 | the handler returned starts with empty text and no ignored run |
| `StreamlitCallback.RenderLogPrefixes` | python/rubin/rag/streamlit_callback.py:57-58 | each render extends the previous one, and the last render is the initial text plus all tokens |
| `StreamlitCallback.RelayedExact` | python/rubin/rag/streamlit_callback.py:55-58 | the relayed tokens are exactly the tokens whose run id differs from the ignored one, in arrival order |
| `StreamlitCallback.IgnoredRunShowsNothing` | python/rubin/rag/streamlit_callback.py:55-56 | tokens of the ignored run add nothing |
| `StreamlitCallback.OtherRunShowsAll` | python/rubin/rag/streamlit_callback.py:55-58 | when no token belongs to the ignored run, every token is relayed |
| `StreamlitCallback.FreshHandlerDropsUnidentifiedTokens` | python/rubin/rag/streamlit_callback.py:39-56 | before any run is ignored, tokens without a run id are dropped (the ignored id and theirs are both `None`), and tokens with one are all shown |
| `StreamlitCallback.RephraseThenAnswer` | python/rubin/rag/streamlit_callback.py:42-58 | after a rephrasing run and an answering run, only the answer's tokens are shown: the text is "Hello" and the renders are "Hel" then "Hello" |
| `VectorStore.MultiTenancySetting` | python/rubin/rag/custom_weaviate_vector_store.py:21-31 | an absent `use_multi_tenancy` becomes false; a given value is passed on unchanged |
| `VectorStore.SimilaritySearch` | python/rubin/rag/custom_weaviate_vector_store.py:50-57 | the result has the hits' length and order; each document's `score` is its paired score, replacing any earlier one; its other metadata and its text are unchanged |
| `VectorStore.SearchResultsHaveScores` | python/rubin/rag/custom_weaviate_vector_store.py:52-57 | annotated search results give the chat page's score list without error, equal to the search's scores |
| `JiraTickets.PathValue` | python/rubin/rag/extra_scripts/parse_jira_tickets.py:108-115 | when the whole path is present through dicts, the walk yields the value at its end; a non-dict met with keys remaining yields the default |
| `JiraTickets.SafeGet` | python/rubin/rag/extra_scripts/parse_jira_tickets.py:108-115 | the loop returns the value the path walk defines |
| `JiraTickets.SafeGetEmptyPath` | python/rubin/rag/extra_scripts/parse_jira_tickets.py:108-115 | an empty path returns the value unchanged |
| `JiraTickets.SafeGetNonDictDefault` | python/rubin/rag/extra_scripts/parse_jira_tickets.py:108-115 | with a non-dict default, the result is the value at the end of the path when the whole path is present through dicts, and the default otherwise |
| `JiraTickets.SafeGetNullIntermediate` | python/rubin/rag/extra_scripts/parse_jira_tickets.py:108-115 | a present but non-dict step (such as a null `assignee`) with keys remaining yields the default |
| `JiraTickets.GetEach` | python/rubin/rag/extra_scripts/parse_jira_tickets.py:31-34 | the list of `get` lookups succeeds if and only if every item is a dict; it then has one entry per item, in order, with the default for a missing key |
| `JiraTickets.CommentEntry` | python/rubin/rag/extra_scripts/parse_jira_tickets.py:85-90 | a comment dict whose author is a dict gives `author` = the author's `displayName` (default "Unknown author") and `body` = its `body` (default "No comment body"); a comment without `author` raises `KeyError`; a non-dict author raises `AttributeError` |
| `JiraTickets.CommentEntries` | python/rubin/rag/extra_scripts/parse_jira_tickets.py:85-91 | one author/body entry per comment, in order, and success if and only if every comment succeeds |
| `JiraTickets.RelatedIssueEntries` | python/rubin/rag/extra_scripts/parse_jira_tickets.py:43-71 | one entry per issue link, in order, and success if and only if every link succeeds |
| `JiraTickets.ExtractRelatedIssues` | python/rubin/rag/extra_scripts/parse_jira_tickets.py:38-73 | the appending loop returns what the per-link rule gives for the whole list, including the error of the first failing link |
| `JiraTickets.AttachmentEntries` | python/rubin/rag/extra_scripts/parse_jira_tickets.py:185-191 | success if and only if every attachment is a dict; then one entry per attachment, in order, with `filename` from `filename` and `url` from `content`, each defaulting to ""; otherwise `AttributeError` |
| `JiraTickets.GetJiraIssue` | python/rubin/rag/extra_scripts/parse_jira_tickets.py:10-22 | there is no error message exactly when the status is 200, and then the body is passed on |
| `JiraTickets.StatusMapping` | python/rubin/rag/extra_scripts/parse_jira_tickets.py:17-22 | status 200 passes the body on without error; 429 gives `[]` and "issue: 429"; any other status gives no data and "issue: status" |
| `JiraTickets.Record` | python/rubin/rag/extra_scripts/parse_jira_tickets.py:167-206 | a record has exactly the eighteen keys, and carries the key, summary and description it is given |
| `JiraTickets.RecordFieldsMiddle` | python/rubin/rag/extra_scripts/parse_jira_tickets.py:171-183 | the record carries the status, assignee, reviewers, reporter, created, updated and resolution values it is given |
| `JiraTickets.RecordFieldsLists` | python/rubin/rag/extra_scripts/parse_jira_tickets.py:184-195 | the record carries the labels, attachments, comments and parent issue values it is given |
| `JiraTickets.RecordFieldsLast` | python/rubin/rag/extra_scripts/parse_jira_tickets.py:196-205 | the record carries the related issues, components, team and project values it is given |
| `JiraTickets.PlaceholderKeys` | python/rubin/rag/extra_scripts/parse_jira_tickets.py:118-165 | both placeholder records have exactly the eighteen record keys |
| `JiraTickets.PlaceholderTexts` | python/rubin/rag/extra_scripts/parse_jira_tickets.py:118-165 | a placeholder record carries the ticket as its key, and its summary and description texts |
| `JiraTickets.PlaceholderRecords` | python/rubin/rag/extra_scripts/parse_jira_tickets.py:118-165 | `None` gives the "Unauthorized or no data available" record and `[]` the rate-limit record, both keyed by the ticket |
| `JiraTickets.ReformatValues` | python/rubin/rag/extra_scripts/parse_jira_tickets.py:167-206 | for an issue that reformats without error, the record is built from the issue's fields: status name or `Unknown`, assignee `Unassigned`, reporter `Unknown`, resolution `Unresolved`, labels `[]`, team `No team`, project `No project` when missing, and the extracted reviewers, attachments, comments, parent, related issues and components |
| `JiraTickets.Reformat` | python/rubin/rag/extra_scripts/parse_jira_tickets.py:118-206 | every record produced, for any input, has exactly the eighteen keys; input that is neither null, `[]` nor a dict raises `AttributeError`; an issue without `fields` raises `KeyError` |
| `JiraTickets.FetchTicket` | python/rubin/rag/extra_scripts/parse_jira_tickets.py:237-240 | a failed request never raises: it yields a complete eighteen-key record and an error message; a 200 yields the reformatted body and no message |
| `JiraTickets.FetchTicketFailures` | python/rubin/rag/extra_scripts/parse_jira_tickets.py:237-240 | a 429 fetch yields the rate-limit record and "ticket: 429"; any other failed status yields the unauthorized record |
| `JiraTickets.ExtractReviewers` | python/rubin/rag/extra_scripts/parse_jira_tickets.py:25-35 | the reviewer list is never empty; an issue without `fields` raises `KeyError` |
| `JiraTickets.ExtractComponents` | python/rubin/rag/extra_scripts/parse_jira_tickets.py:76-79 | the result is a list, empty when there is no components field; an issue without `fields` raises `KeyError` |
| `JiraTickets.ExtractComments` | python/rubin/rag/extra_scripts/parse_jira_tickets.py:82-91 | the result is a list of entries that each have exactly the keys `author` and `body`; an issue without `fields` raises `KeyError` |
| `JiraTickets.ParentValues` | python/rubin/rag/extra_scripts/parse_jira_tickets.py:94-105 | for an issue with a parent, the entry is the parent's key (default `""`), its summary (default `No summary`) and its status name (default `Unknown status`) |
| `JiraTickets.ExtractParentIssue` | python/rubin/rag/extra_scripts/parse_jira_tickets.py:94-105 | the result is `{}` or a dict with exactly `key`, `summary` and `status`; an issue without `fields` raises `KeyError` |
| `JiraTickets.LinkedValues` | python/rubin/rag/extra_scripts/parse_jira_tickets.py:46-69 | a linked-issue entry holds the linked issue's key, summary and status name, and the link type's `outward` name (default `Unknown relation`) |
| `JiraTickets.LinkedIssue` | python/rubin/rag/extra_scripts/parse_jira_tickets.py:46-69 | a linked-issue entry has exactly `key`, `summary`, `status` and `relationship`; a link without the side it is read through raises `KeyError` |
| `JiraTickets.RelatedIssue` | python/rubin/rag/extra_scripts/parse_jira_tickets.py:43-71 | an entry is `{}` or has exactly the four linked-issue keys, and a non-empty one comes from a link dict with an inward or outward issue |
| `JiraTickets.ReviewersShape` | python/rubin/rag/extra_scripts/parse_jira_tickets.py:25-35 | a missing or empty reviewer field gives `["No reviewer assigned"]`; a list of reviewer dicts gives one name per reviewer, in order, defaulting to "Reviewer not found" |
| `JiraTickets.ComponentsShape` | python/rubin/rag/extra_scripts/parse_jira_tickets.py:76-79 | no components field gives `[]`; a list of component dicts gives one name each, in order, defaulting to "No component" |
| `JiraTickets.CommentsShape` | python/rubin/rag/extra_scripts/parse_jira_tickets.py:82-91 | no comment field gives `[]`; otherwise there is one entry per comment, in order, each the `CommentEntry` of that comment (whose defaults and errors that member states) |
| `JiraTickets.NoParentGivesEmpty` | python/rubin/rag/extra_scripts/parse_jira_tickets.py:94-105 | a missing or falsy parent gives `{}` |
| `JiraTickets.UnlinkedGivesEmpty` | python/rubin/rag/extra_scripts/parse_jira_tickets.py:43-71 | a link with neither `inwardIssue` nor `outwardIssue` gives `{}` |
| `JiraTickets.RelationshipIsOutward` | python/rubin/rag/extra_scripts/parse_jira_tickets.py:45-70 | the relationship of every non-empty entry is the link type's `outward` wording, also for inward links |
| `UploadToWeaviate.GetDocuments` | python/rubin/rag/weaviate_utils/upload_to_weaviate.py:95-114 | the non-CSV documents are combined, PDF first and XLSX last; the CSV list is returned as `None` exactly when it is empty |
| `UploadToWeaviate.UploadSet` | python/rubin/rag/weaviate_utils/upload_to_weaviate.py:123-126 | the upload list is the splitter's chunks followed by the CSV documents unsplit |
| `UploadToWeaviate.CsvBypassesSplitter` | python/rubin/rag/weaviate_utils/upload_to_weaviate.py:106-126 | the splitter sees only the non-CSV documents, and every CSV document is appended after its output |
| `UploadToWeaviate.RemoveAll` | python/rubin/rag/weaviate_utils/upload_to_weaviate.py:140-141 | the result is the string unchanged, or shorter by at least one whole occurrence of the pattern |
| `UploadToWeaviate.RemoveAllFirstOccurrence` | python/rubin/rag/weaviate_utils/upload_to_weaviate.py:140-141 | the text before the first occurrence is kept as it is, that occurrence is dropped, and removal goes on in the rest |
| `UploadToWeaviate.RemoveAllAbsent` | python/rubin/rag/weaviate_utils/upload_to_weaviate.py:140-141 | a source without the directory prefix is left unchanged |
| `UploadToWeaviate.RemoveAllLeading` | python/rubin/rag/weaviate_utils/upload_to_weaviate.py:140-141 | a leading occurrence is removed and the left-to-right scan resumes after it |
| `UploadToWeaviate.StripsDirectoryPrefix` | python/rubin/rag/weaviate_utils/upload_to_weaviate.py:140-141 | a path under `Documents\` loses exactly that prefix |
| `UploadToWeaviate.TaggedMetadata` | python/rubin/rag/weaviate_utils/upload_to_weaviate.py:132-137 | the kept keys are the present ones among `source` and `page`, with their values, plus `source_key` = "localdocs" |
| `UploadToWeaviate.NormalizedMetadata` | python/rubin/rag/weaviate_utils/upload_to_weaviate.py:128-141 | normalisation succeeds if and only if there is no `source` or it is a string; otherwise it raises `AttributeError` |
| `UploadToWeaviate.NormalizedShape` | python/rubin/rag/weaviate_utils/upload_to_weaviate.py:128-141 | normalised metadata holds exactly the present keys among `source` and `page`, plus `source_key` = "localdocs"; `page` is kept; `source` loses the prefix; a non-string `source` raises |
| `UploadToWeaviate.NormalizeDocuments` | python/rubin/rag/weaviate_utils/upload_to_weaviate.py:128-141 | the loop replaces every document's metadata in place with its normalised metadata; on a non-string `source` it stops, leaving later documents untouched |
| `UploadToWeaviate.Batches` | python/rubin/rag/weaviate_utils/upload_to_weaviate.py:155-161 | every batch holds between 1 and 1000 documents |
| `UploadToWeaviate.BatchesCover` | python/rubin/rag/weaviate_utils/upload_to_weaviate.py:155-161 | joining the batches gives back the documents, in order |
| `UploadToWeaviate.BatchesAt` | python/rubin/rag/weaviate_utils/upload_to_weaviate.py:159-161 | batch k is `docs[k*1000 : min(k*1000+1000, total)]`, and there are ceil(total / 1000) batches |
| `UploadToWeaviate.PushInBatches` | python/rubin/rag/weaviate_utils/upload_to_weaviate.py:155-177 | the loop pushes the batches in order, numbered from 1; a batch whose push raises is reported as not pushed and the loop goes on |
| `UploadToWeaviate.AnnouncedCountDiscrepancy` | python/rubin/rag/weaviate_utils/upload_to_weaviate.py:164-166 | the announced batch total equals the real number of batches if and only if the total is not a multiple of 1000 |
| `UploadToWeaviate.AnnouncedCountCounterexample` | python/rubin/rag/weaviate_utils/upload_to_weaviate.py:164-166 | with 1000 documents, one batch is pushed, but the message announces 2 |
| `ParseConfluence.Rewritten` | python/rubin/rag/extra_scripts/parse_confluence.py:29-32 | a page raises `KeyError` exactly when it has no `id`; a rewritten page keeps its text and no longer has `id` |
| `ParseConfluence.RewriteDocuments` | python/rubin/rag/extra_scripts/parse_confluence.py:27-33 | one rewritten page per page, in order, with the text unchanged; a page without `id` raises `KeyError` |
| `ParseConfluence.RewrittenShape` | python/rubin/rag/extra_scripts/parse_confluence.py:29-32 | `pageid` holds the old `id` and `id` is removed; `source_key` is "confluence" whatever it was; every other key keeps its value |

## Left out

- Streamlit rendering: chat bubbles, avatars, the expander, the landing page, CSS and the `st.info` line. `markdown` calls appear only as the handler's render log. The `metadata["source"]` read by the citation line is not modelled, so a cited chunk without `source` does not raise here.
- The retrieval chain, the embedding model, Weaviate's client and search, and `qa_chain.invoke` are foreign calls. Their results are inputs: `QueryResult`, the `(document, score)` hits, and the splitter's output.
- The script-run-context wrapping and the `inspect`-based patching of the handler's `on_*` methods, and the random `instance_id`. These serve cross-thread hand-off only.
- HTTP requests, the retry loop with its back-off sleeps, and writing tickets to files. `get_jira_issue` takes the status code and the already decoded JSON body as inputs, so a 200 response whose body is not JSON (where `response.json()` raises) is outside the model.
- The directory loaders and the text splitters. Their output, or a splitting function, is an input.
- `parse_lsst_io.py`, `universal_weaviate_uploader.py`, the collection admin scripts, `chat_prompt_test.py` and `__init__.py` are not part of this model.
- Floating point: scores are reals, so IEEE rounding of `max_score * 0.9` is not modelled.
- A boolean score: Python treats `True` and `False` as 1 and 0 in `max` and the multiplication. The model raises `TypeError` for every non-numeric score.
- Iterating a non-empty JSON object: Python iterates its keys, and the model raises `TypeError` instead. Maps carry no key order. The scripts only iterate such a value on malformed Jira data.
- The order of a record's keys (Python dicts keep insertion order; maps here do not). The same goes for the JSON text a record would be written as.
- `str.lower` is modelled on ASCII letters only.
- `Chatbot.FilterMatches` is an assumed reading of Weaviate's `where` filter: an `Equal` clause compares the document's `source_key` with the text, and an `Or` with no operands matches nothing. The code only builds the filter and passes it to `qa_chain.invoke`. Whether and how the chain applies it is not part of this model, so `Chatbot.WhereFilterMeaning`, `Chatbot.EmptySelectionMatchesNothing`, `Chatbot.FilterOrderIndependent` and `Chatbot.SidebarFilterMatches` hold under that reading.
- `Chatbot.HandleUserInput`: a `qa_chain.invoke` that raises is not modelled; the chain's result is always given. In the code the question is appended to the history before the chain runs, so a raising chain leaves the question in the history without an answer (one message, not two).
- Aliasing: documents are values, so two list entries that are the same Python object are not modelled. Neither is the search mutating the metadata of documents the caller still holds.
- The batch loop's progress messages. Only their total is modelled, in `AnnouncedChunkCount`. The outer `try` around the loop is also left out, because nothing inside it raises outside the inner `try`.
- `StreamlitCallback.StreamHandler.OnLlmStart`: a `run_id` missing from the keyword arguments and one passed as `None` are the same `None` here, as they are for `kwargs.get`.

## Findings

| source | as written | input that shows it | evidently intended | confidence | as-written member | corrected member |
|---|---|---|---|---|---|---|
| python/rubin/rag/weaviate_utils/upload_to_weaviate.py:165 | the batch total in "Pushing chunk X of Y" is `total_docs // chunk_size + 1` | 1000 documents: one batch is pushed, announced as "Pushing chunk 1 of 2" | Y is the number of batches pushed, ceil(total / 1000) | not executed | `UploadToWeaviate.AnnouncedCountCounterexample` | `UploadToWeaviate.BatchesAt` |
