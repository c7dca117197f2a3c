# HRCare support client: a verified model of its stateful core

The HRCare web client is a React page shell with a documentation page, a metrics
page and a chat window. The chat window talks to a retrieval-augmented
question-answering service. This project models the parts of the client that
hold logic rather than markup. Each part is written in the form the source
uses, and each is proved against a specification:

- **The chat session** (`ChatWindow`, class `ChatSession`). Its fields mirror
  the component's state:
  - the message log;
  - the input line;
  - the product-area and section filters;
  - the filter panel flag;
  - the pending flag of the question in flight;
  - the two pop-up selections;
  - the session entry `chatMessages` the log is written to.

  Alongside the class:
  - restoring the log on mount (`Restore`);
  - the filter object sent with a question;
  - the reply built when a question settles;
  - the per-message action buttons;
  - the line-break rendering of message text.

  The invariant `Valid` states four things: since the restore, the log
  alternates question and answer, ending in an unanswered question exactly while
  one is pending; the stored copy is always a prefix of the log (or the entry
  found at mount); each pop-up is open exactly when it has a selection; and a
  selected query id is never empty. The restored log and the entry found at
  mount are recorded by the constructor, and no method changes that record.
- **The chat-open controller** (`App`, class `ChatOpenController`):
  - the open flag, restored from the session entry `chatOpen`;
  - the toggle shared by the chat button and the window's close button;
  - the three-second auto-open timer. The effect arms it only on `/` while the
    chat is closed, and clears it whenever the path or the flag changes.

  Timers have identifiers. A cleared or fired identifier is retired, and firing
  a retired timer changes nothing.
- **The FAQ parser** (`Docs`). It models `formatContent`:
  - the text is split into sections at `\n---\n`, and blank pieces are dropped;
  - the metadata loop reads `key: value` lines up to the first `content:` line;
  - the body is the trimmed text after that line;
  - the header and title rule;
  - the intent-tag cleanup;
  - the paragraph split.

  The rendering becomes a `DocSection` value.
- **The evaluation pop-up** (`EvaluationModal`). It chooses one of four faces
  (hidden, loading, details, failed), with the `RELIABLE` verdict test and the
  `Yes`/`No` hallucination label.

`JsText` gives the JavaScript string operations these parts use their
ECMAScript meaning:
- `trim` removes the WhiteSpace and LineTerminator code points;
- `split` with a non-empty separator;
- `join`, `startsWith`, a global `replace` with an empty replacement;
- `Number.prototype.toString` on non-negative integers below 10^21, which include every `Date.now()` reading.

`Api` mirrors the service's request and response shapes. `Wrappers` holds
`Option`, which stands for `null` and `undefined`.

The environment supplies several things as parameters:
- clock readings (`Date.now()` and `new Date()`);
- the outcome of a dispatched question, `Ok(response)` or `Err(message)`;
- whether a session-storage write succeeds;
- the stored entries found at mount;
- the router's path;
- which timer fires.

## Model

| member | source | states |
|---|---|---|
| `JsText.Trim` | src/pages/Docs.tsx:34 | the result is empty exactly when the input is all white space; otherwise it starts and ends with a character that is not white space, and it is no longer than the input |
| `JsText.TrimIsInfix` | src/pages/Docs.tsx:34 | the trimmed string is an infix of the input with only white space cut off before and after it; with `Trim`'s own contract, this fixes the result |
| `JsText.TrimIdempotent` | src/pages/Docs.tsx:65 | trimming an already trimmed string changes nothing |
| `JsText.TrimDrawsFrom` | src/pages/Docs.tsx:65 | every character of the trimmed string occurs in the input |
| `JsText.Count` | src/pages/Docs.tsx:63 | the number of occurrences is at most the length, and zero exactly when the character is absent |
| `JsText.LeadingSpaces` | src/pages/Docs.tsx:34 | the count covers only white space and stops at the first character that is not white space |
| `JsText.TrailingSpaces` | src/pages/Docs.tsx:34 | the same count, taken from the end of the string |
| `JsText.Split` | src/pages/Docs.tsx:21 | `split` never returns an empty list; `SplitAtFirstOccurrence` and `SplitWithoutSeparator` fix every piece |
| `JsText.Join` | src/pages/Docs.tsx:34 | no parts join to the empty string, one part to itself, and the first part begins the result |
| `JsText.OccursAtStart` | src/pages/Docs.tsx:18 | an occurrence at position 0 is the same as `startsWith` |
| `JsText.OccursInTail` | src/pages/Docs.tsx:18 | an occurrence in the tail at `k` is an occurrence in the string at `k + 1` |
| `JsText.SplitAtFirstOccurrence` | src/pages/Docs.tsx:18 | at the leftmost occurrence of the separator, even one that overlaps itself such as `\n---\n`, `split` cuts off the text before it as the first piece and splits the rest after it |
| `JsText.SplitWithoutSeparator` | src/pages/Docs.tsx:18 | a string in which the separator never occurs splits into itself alone |
| `JsText.JoinCons` | src/pages/Docs.tsx:33-34 | putting a character in front of the first piece puts it in front of the joined string |
| `JsText.JoinSplit` | src/pages/Docs.tsx:33-34 | joining the pieces of `s.split(sep)` with `sep` gives back `s` |
| `JsText.SplitFirstIsPrefix` | src/pages/Docs.tsx:33 | the first piece is a prefix of the string |
| `JsText.SplitPiecesHaveNoSeparator` | src/pages/Docs.tsx:18 | the separator occurs at no position of any piece |
| `JsText.SplitCharCount` | src/pages/Docs.tsx:63 | splitting on a character yields one piece more than the character occurs |
| `JsText.SplitCharPiecesLackIt` | src/pages/Docs.tsx:72 | after splitting on a character, no piece contains it |
| `JsText.SplitPiecesDrawFrom` | src/pages/Docs.tsx:63 | every character of every piece occurs in the string |
| `JsText.FirstCharOccurrence` | src/pages/Docs.tsx:33 | the first index holding a character is the leftmost occurrence of that one-character separator |
| `JsText.SplitAtFirst` | src/pages/Docs.tsx:33 | when `c` first occurs at `i`, the first piece is the text before `i` and the rest, joined with `c`, is the text after it, later occurrences included |
| `JsText.RemoveAll` | src/pages/Docs.tsx:62 | a character is in the result exactly when it is in the input and not removed; every character that is not removed keeps its number of occurrences |
| `JsText.RemoveAllCons` | src/pages/Docs.tsx:62 | a first character is dropped when it is listed and kept in front otherwise |
| `JsText.RemoveAllAppend` | src/pages/Docs.tsx:62 | removal distributes over concatenation, so the kept characters keep their order |
| `JsText.DecimalString` | src/components/ChatWindow.tsx:121 | `Date.now().toString()` is a non-empty string of decimal digits with no leading zero |
| `JsText.DecimalStringRoundTrip` | src/components/ChatWindow.tsx:121 | reading the digits back gives the number, so different clock readings give different ids |
| `Docs.NonBlank` | src/pages/Docs.tsx:18 | the filter never lengthens the list |
| `Docs.NonBlankKeeps` | src/pages/Docs.tsx:18 | the filter keeps exactly the pieces that are not blank |
| `Docs.NonBlankAppend` | src/pages/Docs.tsx:18 | the filter keeps relative order: it distributes over concatenation |
| `Docs.Sections` | src/pages/Docs.tsx:18 | a section is exactly a non-blank piece of the text between `\n---\n` separators, and no section contains the separator |
| `Docs.MarkerIndex` | src/pages/Docs.tsx:26-31 | the index found holds a line starting with `content:`, and no earlier line does; without one, no line does |
| `Docs.ContentStart` | src/pages/Docs.tsx:23-30 | `contentStart` never exceeds the number of lines |
| `Docs.HeaderLines` | src/pages/Docs.tsx:26-31 | the lines read as metadata are a prefix of the section's lines |
| `Docs.Key` | src/pages/Docs.tsx:33-34 | the key has no white space at either end and holds no colon |
| `Docs.Value` | src/pages/Docs.tsx:33-34 | the value has no white space at either end |
| `Docs.KeyValueAroundFirstColon` | src/pages/Docs.tsx:32-34 | the key is the trimmed text before the first colon; the value is the trimmed text after it, later colons kept |
| `Docs.CollectKeys` | src/pages/Docs.tsx:32-35 | a key is in the metadata exactly when some scanned line has a colon and that key |
| `Docs.CollectLastWins` | src/pages/Docs.tsx:34 | a later line with the same key overwrites an earlier one, so the last one's value is kept |
| `Docs.MetadataIgnoresBody` | src/pages/Docs.tsx:26-31 | the metadata and `contentStart` are the same whatever follows the `content:` line |
| `Docs.CollectStep` | src/pages/Docs.tsx:32-35 | scanning one more line writes its entry, if any, over what the earlier lines recorded |
| `Docs.ScanMetadata` | src/pages/Docs.tsx:22-36 | the loop with its `break` records the entries of exactly the lines before the first `content:` line, in order, and sets `contentStart` just past that line (0 without one); `FormatSection` runs it with `EntryOf`, the `includes(':')`, split and trim of lines 32-35 |
| `Docs.Truthy` | src/pages/Docs.tsx:45-59 | a metadata key used as a condition holds when it is present and not empty, and then yields its value |
| `Docs.TrimEach` | src/pages/Docs.tsx:64-65 | the `k`-th result is the `k`-th piece trimmed, and there is one result per piece |
| `Docs.TrimEachShape` | src/pages/Docs.tsx:65 | each trimmed piece is trimmed for good and brings no new character |
| `Docs.Tags` | src/pages/Docs.tsx:59-66 | tag `k` is the `k`-th comma piece of `intent_tags` with brackets and quotes removed, trimmed; there is one tag more than `intent_tags` has commas; no tag holds a comma, bracket or quote, and none has white space at either end |
| `Docs.HeaderOf` | src/pages/Docs.tsx:45-69 | a header exists exactly when `section_id` is non-empty; its title is `section` or `Untitled Section`, so never empty; area, date and tags appear exactly when set; tags come from `Tags` |
| `Docs.Body` | src/pages/Docs.tsx:38 | the body has no white space at either end |
| `Docs.BodyOfSection` | src/pages/Docs.tsx:38 | the body is the trimmed text of the lines after the `content:` line, that line excluded; with no such line it is the whole section trimmed |
| `Docs.BlocksOf` | src/pages/Docs.tsx:72-75 | block `k` is a break when line `k` is blank and otherwise a paragraph of line `k` trimmed |
| `Docs.BlocksOfShape` | src/pages/Docs.tsx:72-75 | every paragraph is non-empty, trimmed, and has no line break |
| `Docs.Blocks` | src/pages/Docs.tsx:72-75 | block `k` is a break when the `k`-th line of the body is blank and otherwise a paragraph of that line trimmed; there is one block more than the body has line breaks; paragraphs are non-empty, trimmed and hold no line break |
| `Docs.FormatSection` | src/pages/Docs.tsx:20-38 | the section callback, with its loop, yields the specified `DocSection` |
| `Docs.RenderAll` | src/pages/Docs.tsx:20 | the map renders one section per section |
| `Docs.RenderAllAt` | src/pages/Docs.tsx:20 | the `i`-th rendered section is the `i`-th section rendered |
| `Docs.FormatContent` | src/pages/Docs.tsx:16-20 | the loop renders the non-blank sections in order, one for each, as `RenderAll` specifies |
| `EvaluationModal.HallucinationLabel` | src/components/EvaluationModal.tsx:74-75 | the label is `Yes` exactly when `possible_hallucination` is set, and `No` otherwise |
| `EvaluationModal.SelectView` | src/components/EvaluationModal.tsx:12-88 | hidden exactly when closed; loading exactly when open and loading, whatever the data; details exactly when open, not loading and data is present; failed exactly when there is no data; details are styled reliable exactly for the verdict `RELIABLE` |
| `ChatWindow.Normalise` | src/components/ChatWindow.tsx:39-43 | a response is kept and anything else becomes `null`; id, text, sender and time stay, and so do the buttons the message shows |
| `ChatWindow.Restore` | src/components/ChatWindow.tsx:33-49 | absent, empty or unusable storage gives the greeting alone; a stored list, even an empty one, gives the same length, ids, texts, senders and times, keeps every response and turns a missing `contextData` into `null` |
| `ChatWindow.RestoreIsStable` | src/components/ChatWindow.tsx:33-78 | restoring, writing back and restoring again gives the same log, up to the greeting's missing `contextData` becoming `null`, which shows the same buttons |
| `ChatWindow.RestoreKeepsNormalLog` | src/components/ChatWindow.tsx:39-43 | a log whose messages all have `contextData` restores to itself |
| `ChatWindow.RestorePrefix` | src/components/ChatWindow.tsx:72-78 | restoring an older copy gives the beginning of what restoring the current log gives (the same messages, with missing `contextData` turned into `null`), so a failed write loses only later messages |
| `ChatWindow.BuildFilters` | src/components/ChatWindow.tsx:132-139 | `product_area` is present only when selected, and likewise `section`; the filters are omitted exactly when neither is selected |
| `ChatWindow.UserMessage` | src/components/ChatWindow.tsx:120-125 | the user's message holds the input as typed, untrimmed, with the given time; its id's digits read back as the clock reading; it carries no response and shows no buttons |
| `ChatWindow.ErrorText` | src/components/ChatWindow.tsx:95 | the error reply is the fixed prefix, the error message and the fixed suffix, and the message can be read back out |
| `ChatWindow.Reply` | src/components/ChatWindow.tsx:82-100 | the reply is a bot message with the clock's id and time; on success its text is the answer and it carries the whole response; on error its text is the error reply and it carries nothing |
| `ChatWindow.ActionsOf` | src/components/ChatWindow.tsx:252-267 | "View Context" shows exactly on bot messages with a response; "Evaluate" shows exactly when, in addition, the query id is non-empty |
| `ChatWindow.BreakLines` | src/components/ChatWindow.tsx:249 | the rendered text has no line feed; text without one is unchanged; each line feed grows the text by five characters |
| `ChatWindow.ExchangesBalance` | src/components/ChatWindow.tsx:118-129 | since the restore, questions outnumber answers by one while a question is pending and equal them otherwise |
| `ChatWindow.ChatSession.constructor` | src/components/ChatWindow.tsx:51-59 | the log is restored, and that restored log and the entry it came from are what the invariant measures later messages against; the first write stores it unless the write fails; every other field starts empty or closed |
| `ChatWindow.ChatSession.HandleSend` | src/components/ChatWindow.tsx:117-140 | it sends exactly when the send button is enabled; a refused send changes nothing; an accepted one appends one user message holding the untrimmed input, keeps earlier messages, clears the input, sets pending, persists, and returns the one request with the built filters |
| `ChatWindow.ChatSession.HandleKeyPress` | src/components/ChatWindow.tsx:142-147 | only Enter without Shift sends, exactly as `HandleSend` does, persisting the log unless the write fails; any other key changes nothing |
| `ChatWindow.ChatSession.Settle` | src/components/ChatWindow.tsx:80-101 | exactly one reply is appended to the unchanged earlier log; pending ends; the log is persisted unless the write fails |
| `ChatWindow.ChatSession.SetInput` | src/components/ChatWindow.tsx:320 | only the input line changes |
| `ChatWindow.ChatSession.HandleSuggestedQuestion` | src/components/ChatWindow.tsx:173-179 | the question fills the input line and nothing is sent |
| `ChatWindow.ChatSession.SetProductArea` | src/components/ChatWindow.tsx:210 | only the product-area filter changes |
| `ChatWindow.ChatSession.SetSection` | src/components/ChatWindow.tsx:224 | only the section filter changes |
| `ChatWindow.ChatSession.ClearFilters` | src/components/ChatWindow.tsx:159-162 | both filters are cleared, so the next question is sent without filters |
| `ChatWindow.ChatSession.ToggleFilters` | src/components/ChatWindow.tsx:308 | the filter panel flag flips and nothing else changes |
| `ChatWindow.ChatSession.HideFilters` | src/components/ChatWindow.tsx:235 | the filter panel closes and nothing else changes |
| `ChatWindow.ChatSession.HandleContextClick` | src/components/ChatWindow.tsx:149-152 | clicking a message's "View Context" selects its response and shows the context pop-up |
| `ChatWindow.ChatSession.CloseContextModal` | src/components/ChatWindow.tsx:341-344 | closing clears both the flag and the selection, so the pop-up is not shown |
| `ChatWindow.ChatSession.HandleEvaluateClick` | src/components/ChatWindow.tsx:154-157 | clicking a message's "Evaluate" selects its query id, opens the pop-up and enables the lookup |
| `ChatWindow.ChatSession.CloseEvaluationModal` | src/components/ChatWindow.tsx:353-356 | closing clears both the flag and the selection, and the lookup is disabled |
| `ChatWindow.ChatSession.EvaluationPanel` | src/components/ChatWindow.tsx:64-68 | the evaluation pop-up is hidden exactly when the lookup is not enabled |
| `App.BoolString` | src/App.tsx:127 | the stored string reads back, on the next load, as the flag it was written from |
| `App.ChatOpenController.constructor` | src/App.tsx:104-122 | the flag is open only when `"true"` is stored; the timer is armed exactly on `/` while closed |
| `App.ChatOpenController.Rerun` | src/App.tsx:112-122 | the effect clears the old timer, whose id is retired, and arms a fresh one exactly on `/` while closed; a retired id stays retired |
| `App.ChatOpenController.Navigate` | src/App.tsx:112-122 | the same path leaves the timer alone; a new path cancels the armed timer; the flag and storage are unchanged; a retired id stays retired |
| `App.ChatOpenController.Toggle` | src/App.tsx:124-128 | the flag flips and its string is stored, so storage matches the flag; the old timer is cancelled, and closing on `/` arms a new one; a retired id stays retired |
| `App.ChatOpenController.Fire` | src/App.tsx:115-118 | only the armed timer acts: it opens the closed chat and stores `"true"`; a cancelled timer changes nothing, now or after any later step, since a retired id stays retired |
| `App.DoubleToggle` | src/App.tsx:124-128 | two toggles restore the flag, and restore the stored value when it matched the flag; a retired id stays retired |

## Left out

- The HTTP helpers (`src/services/api.ts`) are left out. A question's dispatch is the returned `QueryRequest` plus a later `Settle` with its outcome. The error text (`"API error: " + statusText`) is an opaque message.
- The evaluation lookup itself and react-query's caching and deduplication are left out. The model keeps the condition that enables the lookup, and the pop-up takes the lookup's loading flag and data as inputs.
- JSON encoding is left out. The entry `chatMessages` is the abstract `Store`; unparsable JSON and a non-array value are both `Corrupt`. A stored array is assumed to hold message records.
- Timestamps are integers of milliseconds. The `Date` round trip through JSON is taken to be exact, and the time-of-day label is left out.
- Message ids are not claimed unique. Two sends in the same millisecond collide, and so does a send at clock reading 1 with the greeting's id `"1"`.
- `App`'s writes to `chatOpen` are taken to succeed: the source does not catch a failure there.
- Floating point is left out: the confidence bar and percentage, and the similarity scores are shown only as numbers.
- The metrics, report and context pop-up pages are left out; they render pass-through data or format floating point. So are the chat button, the wake-up banner and the filter option catalogues, which are fixed lists not checked anywhere.
- `ChatWindow.ChatSession.SetInput`, `HandleSuggestedQuestion`: no precondition forbids typing or picking a suggestion while a question is pending. The source disables those controls in the browser; the handlers themselves have no guard.
- Focus, scrolling, `setTimeout` for focus, and the window's `if (!isOpen) return null` are left out; none of them changes state.
- The documentation page's loading of the FAQ text is left out: the text is the parameter of `FormatContent`.
- A metadata key `__proto__` is treated as an ordinary key; a JavaScript object does not.
- `text.split(/\n---\n/)` is modelled as a split on the literal string, which this fixed pattern matches identically.
- Auto-open has no "only once" memory. The comment at src/App.tsx:113 says "only if not already opened", but the condition at src/App.tsx:114 checks only the current flag and path, so closing the chat on `/` arms the timer again. The model follows the condition.
- `JsText.DecimalString` idealises `toString` to unbounded integers. From 10^21 on, JavaScript prints exponent form (`"1e+21"`), and above 2^53 a number cannot hold every integer. Its only input is a `Date.now()` reading, which is far below both limits.
- A `string` here is a sequence of Unicode scalar values, whereas a JavaScript string is a sequence of UTF-16 code units. So the greeting's U+1F44B is one character here and two units in JavaScript, and a lone surrogate has no counterpart. No modelled operation depends on this, because every separator and white-space character used is in the Basic Multilingual Plane.
- There is no health polling: the service's health check has no caller in the client.
