# LLM Telegram assistant: context assembly, model catalog, client, bot replies and logging

This project models the core of a Telegram consultation bot that answers users with a large
language model (LLM). The bot keeps an append-only event log in a database. From that log it
assembles each prompt in four parts:

- a fixed Russian system directive;
- "long-term memory": earlier question/answer pairs ranked by keyword overlap with the new
  message;
- a short-term window of the latest user and assistant messages, trimmed to a character
  budget;
- the new message itself.

The modules:

| module | file | what it holds |
|---|---|---|
| `Storage` | `storage.dfy` | The `history` and `contacts` tables, as sequences in a `Store` class. |
| `ContextManager` | `context_manager.dfy` | `get_user_context`, `search_long_term_memory` and `build_messages_with_context`. Each loop is a method proved equal to a specification function, and the properties are proved about those functions. |
| `LlmModels` | `llm_models.dfy` | The model catalog: decrypting each entry's API key at load, lookup by name, the default model. |
| `LlmClient` | `llm_client.dfy` | Request building (auth headers by service, payload) and reply extraction from the parsed JSON body. |
| `Bot` | `bot.dfy` | Removing `<think>…</think>` blocks from a reply, hiding connection errors, the FAQ list text, and FAQ answer selection with its history writes. |
| `Logger` | `logger.dfy` | Level filtering (`should_log`), the console threshold, and `MultiLogger` fan-out. |
| `Text`, `Seqs`, `Wrappers` | `text.dfy`, `seqs.dfy`, `wrappers.dfy` | The Python string and list operations the rest relies on: `strip`, `lower`, `upper`, `\w+` tokenisation, `in`, `join`, `isdigit`/`int`, slices, filters. Also `Option` and `Result`. |

Python's `None` is `Option.None`. A raised exception is a `Result.Err` carrying a named error.
Environment variables are a `map<string, string>` parameter. Timestamps are opaque strings
supplied by the caller.

## Model

| member | source | states |
|---|---|---|
| Storage.Limit | src/storage.py:106 | `LIMIT n` keeps the first `n` rows; a negative `n` keeps all of them. |
| Storage.NewestRowsInOrder | src/storage.py:104-116 | `ORDER BY id DESC LIMIT n`, then reversed, is exactly the last `k` rows in chronological order. |
| Storage.Store.constructor | src/storage.py:27-49 | Both tables start empty, and so does every per-user view. |
| Storage.Store.SaveContact | src/storage.py:51-59 | Appends one contact row and leaves the history unchanged. |
| Storage.Store.SaveHistory | src/storage.py:61-69 | Appends one history row at the end, with missing details stored as `""`. Contacts stay unchanged. |
| Storage.RowsOf | src/storage.py:84-94 | The selected rows are exactly the given user's rows, or all rows when no user is given. |
| Storage.RowsOfAppend | src/storage.py:61-94 | After a save, the full view gains the new row at the end. A user's view gains it only when the row is that user's. |
| Storage.Store.GetHistory | src/storage.py:84-94 | Holds exactly the rows of the given user, or all rows when no user is given. |
| Storage.Store.Conversation | src/storage.py:104-105 | Holds exactly the user's rows whose action is `user_message` or `assistant_reply`. |
| Storage.Store.GetRecentHistory | src/storage.py:96-116 | Returns the last `limit` of those rows (all of them for a negative limit), oldest first, never more than `limit`. |
| Seqs.SlicePrefix | src/context_manager.py:146 | Python `s[:n]`, including a negative `n` that counts from the end. |
| Text.Strip | src/context_manager.py:50-53 | `strip()` never lengthens, and the result has no whitespace at either end. |
| Text.StripSpec | src/context_manager.py:50-53 | The result is empty exactly when the text is blank, and it is the text between two all-whitespace ends. |
| Text.StripIdempotent | src/bot.py:34 | Stripping twice equals stripping once. |
| Text.Lower | src/context_manager.py:127-136 | `lower()` works character by character and keeps the length. |
| Text.Upper | src/logger.py:18 | `upper()` works character by character and keeps the length. |
| Text.Words | src/context_manager.py:127 | Every token of `re.findall(r'\w+', …)` is a non-empty run of word characters. |
| Text.WordsOccurIn | src/context_manager.py:127 | Every token occurs in the text. |
| Text.NoWordCharsNoWords | src/context_manager.py:127 | Text without word characters yields no tokens. |
| Text.IsSubstringAt | src/context_manager.py:134-136 | `needle in hay` holds exactly when the needle occurs at some position. |
| Text.JoinContainsPart | src/bot.py:187 | Each part occurs in the `join`. |
| Text.NatToString | src/bot.py:186 | The decimal numeral is all digits, with no leading zero. |
| Text.ParseNatToString | src/bot.py:211-212 | `int` of a printed number gives the number back. |
| ContextManager.ToTurnsShape | src/context_manager.py:46-54 | Window turns are user or assistant turns with stripped, non-empty content. |
| ContextManager.ToTurnsAppend | src/context_manager.py:46-54 | The filter keeps history order (it distributes over concatenation). |
| ContextManager.ToTurnsOfRow | src/context_manager.py:47-54 | A `user_message` or `assistant_reply` row with non-blank details becomes one turn with the right role and stripped content. Any other row becomes none. |
| ContextManager.NewestWithinSpec | src/context_manager.py:64-71 | The walk from the newest turn gives a suffix of the turns. Its total length fits the budget, and the next older turn would not fit. |
| ContextManager.NewestWithinStep | src/context_manager.py:66-71 | The newest turn is kept and the walk continues when it fits. Otherwise the walk stops with nothing. |
| ContextManager.TrimToBudgetSpec | src/context_manager.py:59-72 | The trimmed window is a suffix within the budget. It is unchanged when already within budget, and empty when the newest turn alone is too long or the budget is negative. |
| ContextManager.ContextWindowSpec | src/context_manager.py:44-72 | The window is a suffix of the converted rows and fits the budget. It is all of them when they fit, and holds only stripped user/assistant turns. |
| ContextManager.Scan | src/context_manager.py:102-123 | The pair scan stores only complete, timestamped pairs, at most one per two rows. |
| ContextManager.Pairs | src/context_manager.py:121-123 | Every recalled pair has both sides non-empty and a timestamp, and there are at most half as many pairs as rows. |
| ContextManager.ScanAppend | src/context_manager.py:105-119 | The scan processes the rows one at a time, in order. |
| ContextManager.UnansweredQuestionNotRecalled | src/context_manager.py:106-116 | A trailing question without an answer adds no pair. |
| ContextManager.OtherActionsIgnored | src/context_manager.py:105-119 | Rows with other actions leave the pairs unchanged. |
| ContextManager.AnsweredQuestionRecalled | src/context_manager.py:105-123 | A non-empty question followed by a non-empty answer adds exactly that pair, with the question's time. |
| ContextManager.LaterReplyOverwrites | src/context_manager.py:117-119 | Of two answers to one question, the later one is kept. |
| ContextManager.ReplyWithoutQuestionIgnored | src/context_manager.py:117 | An answer with no open question changes nothing. |
| ContextManager.ScoreAtMost | src/context_manager.py:131-137 | Each keyword adds at most 3 points. |
| ContextManager.ScorePositiveIff | src/context_manager.py:131-140 | The score is positive exactly when some keyword occurs in the question or the answer. |
| ContextManager.ScorePairs | src/context_manager.py:130-140 | The scored list holds exactly the pairs with a positive score, each with that score. |
| ContextManager.ScorePairsAppend | src/context_manager.py:130-140 | Scoring keeps pair order. |
| ContextManager.InsertByScore | src/context_manager.py:143 | Insertion adds exactly one element (multiset). |
| ContextManager.InsertByScoreSorted | src/context_manager.py:143 | Insertion into a descending list keeps it descending. |
| ContextManager.SortByScore | src/context_manager.py:143 | The sort is a permutation. |
| ContextManager.SortByScoreSorted | src/context_manager.py:143 | The sort output is in descending score order. |
| ContextManager.InsertByScoreStable | src/context_manager.py:143 | Insertion puts the new element before the equal-score elements already there. |
| ContextManager.SortByScoreStable | src/context_manager.py:143 | The sort is stable: pairs with equal scores keep their history order, as `list.sort(reverse=True)` does. |
| ContextManager.PackMemoriesSpec | src/context_manager.py:149-163 | The memories are the leading ranked pairs rendered as system turns. Their texts fit the budget, and the next one would not. |
| ContextManager.RankedSpec | src/context_manager.py:127-143 | The ranking is descending and holds only complete pairs of the history, each with its positive score. |
| ContextManager.PackTopSpec | src/context_manager.py:146-163 | At most `max_long_term_results` memories are returned. They are the top-ranked pairs in order, within budget, and none for a negative budget. |
| ContextManager.RecallSpec | src/context_manager.py:125-163 | Combines the two results above for the full recall. |
| ContextManager.RecallAllSystem | src/context_manager.py:157-160 | Every memory is a `system` turn. |
| ContextManager.CollectTurns | src/context_manager.py:45-54 | The filtering loop computes the converted rows. |
| ContextManager.TrimNewest | src/context_manager.py:59-72 | The backwards loop with `insert(0, …)` and `break` computes the trimmed window. |
| ContextManager.CollectPairs | src/context_manager.py:102-123 | The pair loop, including the final pending pair, computes the pairs. |
| ContextManager.ScorePair | src/context_manager.py:132-137 | The inner `score +=` loop computes the score. |
| ContextManager.ScoreAll | src/context_manager.py:130-140 | The scoring loop computes the positive-score list. |
| ContextManager.PackTop | src/context_manager.py:149-163 | The packing loop with `break` computes the memories. |
| ContextManager.ContextManager.constructor | src/context_manager.py:23-28 | The settings are kept as given. |
| ContextManager.ContextManager.GetUserContext | src/context_manager.py:30-81 | Returns the window over the last `max_messages` conversational rows: at most that many turns, within the character budget, only stripped user/assistant turns. A storage failure gives `[]`. |
| ContextManager.ContextManager.SearchLongTermMemory | src/context_manager.py:83-172 | Returns nothing when disabled, for an empty query, or on a storage failure. Otherwise returns the recall over the user's full history: system turns, at most `max_long_term_results` of them. |
| ContextManager.ContextManager.BuildMessagesWithContext | src/context_manager.py:174-215 | The prompt is the system directive, then the memories (only when enabled), then the window, then the current message. |
| LlmModels.MasterKey | src/llm_models.py:17-24 | The master key is found exactly when the variable is set, non-empty and decodes to 32 bytes. A missing or empty variable is its own error. |
| LlmModels.SplitJoin | src/llm_models.py:35-41 | Splitting at 16 bytes undoes `iv + ct`. |
| LlmModels.DecryptKey | src/llm_models.py:38-46 | Master-key errors come first, then an undecodable blob. |
| LlmModels.DecryptEncrypted | src/llm_models.py:27-46 | A key encrypted with the configured master key decrypts to itself, given inverse library primitives. |
| LlmModels.FillKeysSpec | src/llm_models.py:68-71 | Loading succeeds exactly when every encrypted key decrypts. It keeps count and order, and otherwise fails with the first entry's error. |
| LlmModels.FillKeyShape | src/llm_models.py:69-70 | An entry without an encrypted key is unchanged. One with a key gets `api_key` set to the decrypted key. |
| LlmModels.FillKeysFirstError | src/llm_models.py:68-71 | The first failing entry decides the error. |
| LlmModels.FillKeysOk | src/llm_models.py:68-71 | When every entry fills, the result is the list of filled entries. |
| LlmModels.DecryptEntries | src/llm_models.py:68-71 | The in-place decryption loop computes the filled list, or the first error. |
| LlmModels.LoadModels | src/llm_models.py:63-71 | A missing catalog file gives an empty catalog; otherwise the filled list. |
| LlmModels.FindByName | src/llm_models.py:76-80 | The entry found is in the catalog with that name; none is found exactly when no entry has it. |
| LlmModels.FindByNameFirst | src/llm_models.py:76-80 | The entry found is the first with that name. |
| LlmModels.Catalog.constructor | src/llm_models.py:59-74 | The catalog keeps the loaded entries, which `get_models` returns, and takes its default name from `DEFAULT_LLM_MODEL`, or `gpt-3.5-turbo` when that is unset. |
| LlmModels.Catalog.GetModelByName | src/llm_models.py:76-80 | The loop with early return finds the first entry with the name, or `None` when no entry has it. |
| LlmModels.Catalog.GetDefaultModel | src/llm_models.py:82-83 | The default model is the lookup of the default name. |
| LlmClient.Contains | src/llm_client.py:48-54 | `key in data` is key membership for an object. It raises for `null`, booleans and numbers. |
| LlmClient.Get | src/llm_client.py:48-55 | Indexing by key succeeds exactly on an object holding the key. |
| LlmClient.ApiKeyFor | src/llm_client.py:15-16 | The API key is read from the variable named by `api_key_env`, when that name is non-empty and set. |
| LlmClient.AuthHeaders | src/llm_client.py:18-23 | The headers always include `Content-Type: application/json`. With a non-empty key: `x-api-key` for `anthropic`, else `Authorization: Bearer …`, never both. |
| LlmClient.BuildHeaders | src/llm_client.py:18-23 | The step-by-step dict update computes those headers. |
| LlmClient.PayloadSpec | src/llm_client.py:24-40 | Both branches build one payload: the model name, the messages unchanged, `max_tokens` or 1024, and no streaming. |
| LlmClient.TextBlocksAppend | src/llm_client.py:49 | The text items are joined in list order. |
| LlmClient.TextBlocksSingle | src/llm_client.py:49 | A `text` item contributes its `text` (or `""`); other items contribute nothing. |
| LlmClient.TextBlocksNonObject | src/llm_client.py:49 | A non-object item in `content` makes the join raise. |
| LlmClient.AnthropicContentList | src/llm_client.py:46-49 | For `anthropic`, a `content` list wins and yields the joined text. |
| LlmClient.AnthropicCompletion | src/llm_client.py:50-52 | For `anthropic` without a `content` list, `completion` is returned. |
| LlmClient.FirstChoice | src/llm_client.py:53-55 | Otherwise the first choice's message content is returned. |
| LlmClient.UnexpectedBody | src/llm_client.py:53-56 | A body without usable choices is the "unexpected response" error. |
| LlmClient.ReplyOutcome | src/llm_client.py:42-44 | A status of 400 or above is an error before the body is read. A body that is not JSON is an error. |
| LlmClient.Client.constructor | src/llm_client.py:7-8 | The client uses the given catalog. |
| LlmClient.Client.Generate | src/llm_client.py:10-56 | An unknown model is an error and sends nothing. Otherwise the request goes to the model's endpoint with those headers and payload, and the result is the extracted reply or the HTTP/body error. |
| Bot.FirstCloseSpec | src/bot.py:28 | The closing tag found is the nearest one at or after the start position. |
| Bot.RemoveThink | src/bot.py:28-34 | Removing blocks never lengthens the text. |
| Bot.ScrubUnchanged | src/bot.py:28-34 | A scan changes its part of the text exactly when that part holds a complete block. |
| Bot.ScrubShrinks | src/bot.py:28-34 | A scan that meets a block shortens the text. |
| Bot.RemoveThinkUnchanged | src/bot.py:28-34 | The text is unchanged exactly when it holds no complete `<think>…</think>` block, in any letter case. A lone `<think>` is kept. |
| Bot.ScrubKeepsRun | src/bot.py:28-34 | A run of text in which no `<think>` starts is kept verbatim, stray `<` included. |
| Bot.ScrubSkipsBlock | src/bot.py:28-34 | A block ends at the nearest closing tag (non-greedy). |
| Bot.ScrubSuffix | src/bot.py:28-34 | After a block, matching resumes on the rest of the text on its own. |
| Bot.ScrubFirstBlock | src/bot.py:28-34 | Scanning keeps the text before the first opening tag, stray `<` included, and skips the block to the end of its nearest closing tag. |
| Bot.RemoveThinkBlock | src/bot.py:28-34 | The text before the first opening tag is kept, stray `<` included; the block from `<think>` to the nearest `</think>` disappears, and the rest is processed left to right without overlap. |
| Bot.FormatResponse | src/bot.py:30-35 | A string reply is cleaned: no longer than before, no whitespace at either end. Any other value is only rendered with `str`. |
| Bot.NoOpenTagWithoutLt | src/bot.py:28 | Text without `<` holds no block. |
| Bot.FormatPlain | src/bot.py:30-35 | Text without `<` and already stripped is returned unchanged. |
| Bot.DeliverSpec | src/bot.py:94-131 | The history gets the formatted reply. The chat gets the same text unless it starts with the connection-error prefix, in which case the chat gets the "temporarily unavailable" text. |
| Bot.DeliverFailure | src/bot.py:102-121 | A failed call sends and saves the fixed error text. |
| Bot.ConnectionErrorHidden | src/bot.py:117-118 | A reply whose cleaned text starts with the connection-error prefix is hidden from the chat; the cleaned text is saved in the history. |
| Bot.FaqListShowsEvery | src/bot.py:186-188 | The FAQ list opens with the header, ends with the instruction, and shows each question behind its one-based number. |
| Bot.ShowFaqList | src/bot.py:178-195 | `/faq` sends the list. For a known user it saves the command, `faq_list_shown` and the reply, in that order. |
| Bot.FirstContainingSpec | src/bot.py:218-221 | The question found is the first that contains the text ignoring case; `None` means no question does. |
| Bot.SelectAnswer | src/bot.py:210-221 | The selection loop with `break` computes the specified answer. |
| Bot.NumberShownSelects | src/bot.py:186-216 | Typing the number shown in front of a question selects that question's answer. |
| Bot.NumberOutOfRange | src/bot.py:211-216 | `0`, and any number past the end of the list, selects nothing. |
| Bot.TextSelectsFirstMatch | src/bot.py:217-221 | Non-digit text selects the first question containing it, ignoring case. |
| Bot.TextWithoutMatch | src/bot.py:217-221 | Non-digit text found in no question selects nothing. |
| Bot.EmptyTextSelectsFirst | src/bot.py:217-221 | An empty message selects the first answer. |
| Bot.ChooseReply | src/bot.py:210-231 | A non-empty selected answer is sent and marks the question answered. Otherwise the "not found" text is sent. |
| Bot.SaveFaqExchange | src/bot.py:207-231 | The three history rows are saved in order: the message, `faq_answered` or `faq_not_found` with `question=…`, and the reply. |
| Bot.RespondFaq | src/bot.py:204-231 | With the FAQ list present, the reply is the selected answer or the "not found" text. For a known user the message, the outcome and the reply are saved in order; otherwise nothing is saved. Contacts are untouched. |
| Bot.AnswerFaq | src/bot.py:197-231 | Nothing happens without FAQs. Otherwise the stripped message is answered, with the "not found" text when no non-empty answer is selected. For a known user the three rows are saved; contacts are untouched. |
| Logger.Rank | src/logger.py:15-20 | Every level name ranks between 10 and 40, and unknown names rank 20. |
| Logger.EmittedSpec | src/logger.py:113-115 | Fan-out: every record carries the same arguments, and records come from exactly the loggers that accept the level, in list order. |
| Logger.MultiLogger.constructor | src/logger.py:111-112 | The logger list is kept and nothing has been written. |
| Logger.MultiLogger.Emit | src/logger.py:39-107 | The file and database loggers write when `should_log` holds. The cloud logger writes nothing. The console writes from rank 20 up. |
| Logger.MultiLogger.Log | src/logger.py:113-115 | The loop calls every child logger with the same arguments, in order, with `event_type` defaulting to `event`. |
| Logger.ErrorAlwaysLogged | src/logger.py:15-20 | `ERROR` passes whatever level is configured. |
| Logger.LowerCaseLevelRanksAsInfo | src/logger.py:20 | The message level is not upper-cased, so `debug` ranks as `INFO`. |
| Logger.UpperIdempotent | src/logger.py:18 | Upper-casing twice equals upper-casing once. |
| Logger.ConfiguredLevelIgnoresCase | src/logger.py:18 | `LOG_LEVEL` is read without regard to case. |
| Logger.ShouldLogMonotone | src/logger.py:17-20 | A higher-ranked level passes whenever a lower-ranked one does. |
| Logger.ErrorLevelFiltersFile | src/logger.py:17-20 | With `LOG_LEVEL=ERROR`, exactly `ERROR` messages pass. |
| Logger.BelowLevelWritesNothing | src/logger.py:39-94 | A message below the configured level is written by none of the file, database and cloud loggers. |
| Logger.ConsoleIgnoresConfig | src/logger.py:99 | The console writes exactly from rank 20 up, whatever `LOG_LEVEL` says. |
| Logger.DefaultLoggerWrites | src/logger.py:118 | The default instance writes to the file when `should_log` holds, then to the console from rank 20 up. |

## Left out

- Telegram transport: `reply_text`, `send_message`, the send fallback, the conversation-state wiring, polling, the typing indicator and its cancellation. Only what is sent and saved is modelled.
- Handlers other than `/faq` and `answer_faq` (`start`, `ask_contact`, `save_contact_handler`, the routing in `user_message_handler`). They are fixed texts plus the store writes `Storage.Store.SaveHistory` and `Storage.Store.SaveContact` already model.
- The 90-second `asyncio.wait_for` timeout and the HTTP POST with its 60-second timeout. The outcome of the call (`Bot.LlmOutcome`) and the HTTP status and parsed body (`LlmClient.HttpReply`) are inputs.
- Base64, AES-CBC with PKCS7 padding, UTF-8 coding and `os.urandom`. These are function-valued fields of `LlmModels.Crypto`, and the IV is a parameter. The `encrypt_llm_key.py` command-line tool is not part of this model.
- Reading and parsing the catalog, FAQ and other JSON files. The catalog arrives as an optional list of entries, with `None` for a missing file. Catalog entries always have `name` and `endpoint`, so the `KeyError` of an entry without them is not modelled. An `encrypted_api_key` is a string or absent: an entry holding `null` or another non-string there, on which `decrypt_key` raises, is not representable and reads as "no key".
- SQLite: connections, `CREATE TABLE`, SQL text and database errors. A failed storage call in `get_user_context` and `search_long_term_memory` is the `fetchFails` input.
- FileLogger rotation, the JSON rendering of log records, DBLogger's table setup, the CloudLogger request, and timestamps.
- The logging calls inside the context manager, the client and the bot.
- Environment reads at import time. The configuration is a constructor argument or an `env` map.
- JSON floats. Numbers are integers, and Python's `str()` of a non-string reply is the `render` parameter of `Bot.FormatResponse`.
- Text.Lower: exact only for ASCII and the Cyrillic block U+0400–U+04FF; other characters (Latin-1, Greek, the Cyrillic Supplement from U+0500, and so on) are left unchanged, unlike Python's full Unicode `lower()`.
- Text.Upper: exact for ASCII and for dotless `ı`; other non-ASCII letters are left unchanged. Those are the only characters whose upper case is one of the ASCII letters in the level names, so `Logger.ShouldLog` is unaffected.
- Text.Words: `\w` is ASCII letters, digits, `_` and the Cyrillic block, not the full Unicode word class.
- Text.NatToString: `str.isdigit()` is modelled for ASCII digits only; other Unicode digits are not recognised by `Text.IsDigits`.
- Bot.DeliverSpec: for a timeout the fixed timeout text is formatted like any reply, as in the source. No lemma shows that the formatting leaves this text unchanged.
