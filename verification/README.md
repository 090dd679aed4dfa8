# Streaming chat client: a verified model

The client (`chat.py`) is a terminal chat loop around a pre-built language-model
engine and a tokenizer. This project models its two pieces of sequential logic in
Dafny:

- **The streaming delta printer** (`streaming.dfy`, module `Streaming`). The client
  assumes that each item the engine streams carries every token id produced so far,
  prompt included; some runners yield only the new tokens. The model takes the items
  as arbitrary id lists, so it covers both cases. The client drops the first
  `len(input_ids)` ids, but only when the item is longer than the prompt; otherwise
  the generated part is empty. For a runner that yields only new tokens this means
  that nothing is printed until an item is longer than the prompt, and that the
  first `len(input_ids)` generated ids are silently dropped. The client decodes the
  rest and prints only what lies beyond `last_text_len`, and only when the text grew.
  `Printer` holds `last_text_len` and `full_response`. `Step` is one iteration of the
  loop, `Run` is the loop over a whole stream, and `StreamTurn` is the loop itself as
  a method proved equal to `Run`. The tokenizer's `decode` is a parameter about which
  nothing is assumed.
- **The turn loop and its history** (`session.dfy`, module `Session`). The history
  starts with one system entry. A blank line is skipped. An exit word (`exit`,
  `quit`, `離開`, in any letter case) ends the loop. Any other line is appended as a
  user entry. An assistant entry holding the turn's `full_response` follows only
  when the stream ran to its end. `Turn` is one pass of the `while True` loop and
  `Pass` is that pass as a method. `Replay` and `WholeSession` are the loop over the
  lines typed, and `ChatLoop` is the loop as a method proved equal to `WholeSession`.

The chat template, `encode` and the engine are one parameter, `world`. It gets the
position of the line and the history the template would see, and answers with a
`Backend` value:

- the template raised;
- `encode` raised;
- the prompt's ids, together with a stream that either completed or raised after
  some of its items were handled.

Terminal output is an appended log of `Event`s. The lines typed are a sequence, and
its end is end of input.

What the code does rather than what one might expect:

- The history does not strictly alternate between user and assistant entries. When
  the template fails, the user entry stays without an answer.
  `TemplateFailureLeavesUnansweredTurn` shows two user entries side by side. What
  does hold is `WellFormed`: every assistant entry directly follows a user entry. It
  follows that answers never outnumber questions.
- The exit words are compared after lower-casing but without stripping, so
  `" exit"` becomes a user entry.
- `encode` (chat.py:104) sits outside the `try`. If it raises, the program stops.
  The model records this as the `Crash` event, which ends the loop.
- The printed pieces are guaranteed to add up to `full_response` when each text that
  gets printed extends the previous response (`RunEchoesResponse`). Without that they
  can differ. A tokenizer may rewrite characters it decoded earlier, for example a
  multi-byte character split across tokens. `RewriteBreaksEcho` is such a stream: the
  terminal shows `abz` while the history records `xyz`. The condition is not necessary:
  in `EchoWithoutExtending` a later text undoes an earlier rewrite, and the pieces
  still add up.

## Model

| member | source | states |
|---|---|---|
| `Streaming.GeneratedIds` | chat.py:132-136 | when the item is longer than the prompt, the generated ids are the item with its first `len(input_ids)` ids removed (prompt ids + generated ids = item); otherwise they are empty |
| `Streaming.Concat` | chat.py:143-144 | the text the terminal shows after the pieces were printed without separators; its length is the sum of the pieces' lengths |
| `Streaming.Step` | chat.py:127-146 | one iteration: nothing is printed exactly when the state is unchanged, and exactly when no ids were generated or the decoded text is not longer than `last_text_len`; otherwise it prints one non-empty piece, the decoded text beyond `last_text_len`, and records `last_text_len = len(current_text)` and `full_response = current_text`; the counter never decreases, `last_text_len == len(full_response)` is kept, and when the new text extends the old response, old response + piece = new response |
| `Streaming.Run` | chat.py:119-146 | over a whole stream starting from 0 and "": `last_text_len == len(full_response)` at the end, the total length of the printed pieces equals the final `last_text_len`, every printed piece is non-empty, and there are at most as many prints as stream items |
| `Streaming.StreamTurn` | chat.py:119-146 | the loop's final `last_text_len`, `full_response` and printed pieces are exactly those of `Run`; in particular `last_text_len == len(full_response)` == total printed length |
| `Streaming.StreamStep` | chat.py:127-146 | one pass of the loop body: the new `last_text_len`, `full_response` and printed pieces are exactly those `Step` gives for the item, with its piece, if any, appended to those printed before |
| `Streaming.RunMonotone` | chat.py:142-146 | across iterations `last_text_len` never decreases, and the pieces printed so far are a prefix of all the pieces printed |
| `Streaming.RunResponseFrom` | chat.py:138-146 | `full_response` is either "" or the whole decoded text of one stream item that had generated ids |
| `Streaming.RunEchoesResponse` | chat.py:142-146 | if every printed text extended the response recorded before it, the printed pieces concatenate to the final `full_response` |
| `Streaming.PrefixOrderedPrintsExtend` | chat.py:138-146 | if every item's decoded text is a prefix of every later item's decoded text, then every printed text extended the previous response |
| `Streaming.PrefixOrderedEchoes` | chat.py:142-146 | if the decoded texts only ever extend each other, the printed pieces concatenate to the final `full_response` |
| `Streaming.RewriteBreaksEcho` | chat.py:139-146 | without that condition the echo can fail: for any `decode` taking [7] to "ab" and [7, 8] to "xyz", the items [5, 7] and [5, 7, 8] after a one-id prompt print "ab" and then "z", while `full_response` ends as "xyz" |
| `Streaming.RunSnoc` | chat.py:124-146 | the loop over a stream with one more item is the loop over the earlier items followed by one more iteration on the new item |
| `Streaming.EchoWithoutExtending` | chat.py:138-146 | the extend condition is not necessary: for any `decode` taking [1], [1, 2], [1, 2, 3] to "ab", "xbc", "abcd", the items [5, 1], [5, 1, 2], [5, 1, 2, 3] after a one-id prompt print "ab", "c", "d", which add up to the final `full_response` "abcd", although "xbc" does not extend "ab" |
| `Session.TrimStart` | chat.py:82 | left-stripping never lengthens the line, and what is left is empty or starts with a character Python's `str.isspace` rejects; together with `TrimStartIsSuffix` (the removed prefix is whitespace) this is exactly `str.lstrip()` |
| `Session.TrimStartIsSuffix` | chat.py:82 | left-stripping only removes characters from the front, and every character it removes is whitespace: the line is whitespace followed by the result |
| `Session.TrimStartEmpty` | chat.py:82 | left-stripping leaves nothing exactly when every character of the line is whitespace |
| `Session.TrimEnd` | chat.py:82 | right-stripping leaves a prefix of the line, which is empty or ends with a non-whitespace character, and which is non-empty when the line starts with a non-whitespace character; together with `TrimEndRemovesWhitespace` (the removed suffix is whitespace) this is exactly `str.rstrip()` |
| `Session.TrimEndRemovesWhitespace` | chat.py:82 | right-stripping only removes whitespace: the line is the result followed by whitespace |
| `Session.BlankIsAllWhitespace` | chat.py:82-83 | `not line.strip()` holds exactly for the empty line and the lines made only of whitespace (the 29 code points of `str.isspace`) |
| `Session.LowerCases` | chat.py:85 | lower-casing keeps the length, moves each upper-case ASCII letter to its lower-case partner, keeps every other character, and leaves no upper-case ASCII letter |
| `Session.ExitWordNotBlank` | chat.py:82-87 | an exit word is never blank, so the blank test before the exit test never hides one; an exit word has 4 or 2 characters |
| `Session.ExitWordSpellings` | chat.py:85 | `EXIT`, `Quit` and `離開` are exit words, while `" exit"` and `"exit "` are not: case is ignored, surrounding whitespace is not |
| `Session.Respond` | chat.py:92-154 | after the user entry: a failed template logs the error and the loop goes on; a failed `encode` logs the crash and ends the loop; otherwise the log gets the reply prefix, one piece per print of `Run`, and the line break when the stream completed or the error when it raised; the history gains the assistant entry holding `Run`'s `full_response` exactly when the stream completed, and is unchanged otherwise |
| `Session.KeepsShape` | chat.py:90-151 | appending a user entry and then at most one assistant entry keeps the history's shape (system entry first and only there, each assistant entry right after a user entry) |
| `Session.RespondAfterUser` | chat.py:90-154 | once the line is appended as a user entry, whatever the backend answers: the log and the history only grow, the history keeps its shape, the loop ends exactly when `encode` raised, and the history gains the assistant entry holding the stream's `full_response` exactly when the stream completed |
| `Session.Turn` | chat.py:76-154 | one pass: the log and the history only grow and the history keeps its shape; a blank line only adds the read's prompt to the log; an exit word logs the prompt and the goodbye, ends the loop and leaves the history alone; any other line is appended as a user entry and the turn is then exactly `Respond` on that history (its log clauses give the events written), so it appends the assistant entry holding the stream's `full_response` exactly when the stream completed, and ends the loop exactly when `encode` raised |
| `Session.Pass` | chat.py:76-154 | the loop body as statements computes exactly the history, log and end flag of `Turn` |
| `Session.RespondEchoes` | chat.py:107-151 | when the stream completed and every printed text extended the previous response, the terminal shows the reply prefix, the pieces and the line break, and the assistant entry holds exactly the concatenated pieces |
| `Session.AnsweredTurnEchoes` | chat.py:90-151 | for an answered turn whose stream only extended its response, the pieces written to the terminal concatenate to the assistant entry the turn appends |
| `Session.Replay` | chat.py:65-154 | the history, starting from the single system entry, always has the shape `WellFormed` describes |
| `Session.WholeSession` | chat.py:75-87 | the session always ends with the history of the loop over the lines; when the lines ran out before an exit, the last read logs its prompt and the goodbye (end of input); otherwise nothing is added after the exit |
| `Session.ChatLoop` | chat.py:65-154 | the loop's final history and log are exactly those of `WholeSession` (including the goodbye at end of input); the history has the shape `WellFormed` describes, and it never holds more assistant than user entries |
| `Session.ReplayStops` | chat.py:78-87 | once the loop has ended, the lines after that point change neither the history nor the log |
| `Session.ReplayGrows` | chat.py:65-151 | the history and the log only grow: after any prefix of the input they are prefixes of what they are after all of it |
| `Session.AnswersNeverExceedQuestions` | chat.py:90-154 | in a history of that shape, assistant entries never outnumber user entries, and are strictly fewer while the last entry is an unanswered user entry |
| `Session.FailedThenAnswered` | chat.py:90-151 | from any state, a line whose template failed and then a line whose stream completed leave two user entries side by side, followed by the assistant entry, and the loop goes on after the first |
| `Session.TemplateFailureLeavesUnansweredTurn` | chat.py:99-101 | for every `world` in which the template fails for "hi" and the stream for "hello" completes with no items, the session's history is system, user "hi", user "hello", assistant "": the history does not alternate |

## Left out

- Loading the configuration, the engine-directory check and process exit (chat.py:16-35) are not modelled. They are file I/O.
- The import guard for the inference runtime (chat.py:9-14) is not modelled. It is a foreign library.
- Loading the tokenizer, with its local-then-remote fallback, and the pad-token default (chat.py:40-52) are not modelled. They are foreign library calls.
- Loading the engine (chat.py:55-59) is not modelled. It is a foreign library call.
- `apply_chat_template` and `encode` (chat.py:94-104) are not modelled as text. They are reduced to the outcome `world` reports: the template fails, `encode` fails, or the prompt's ids.
- `runner.generate` (chat.py:111-117) is not modelled. Its stream is the sequence of the id lists of batch 0, beam 0 (chat.py:127), so the indexing into the batch and beam is not modelled.
- The model fixes the points where an exception can happen. An exception is taken to end the stream between two items, after some prefix of them was handled. An exception while a piece is being printed is not distinguished.
- `decode` (chat.py:139) is an arbitrary function from ids to text. Tokenization is not modelled.
- The `skip_special_tokens` option is part of that function.
- `input`, `print` and the banners (chat.py:69-73) are reduced to events. The banners are left out. The messages' wording and their split between standard output and standard error are not modelled.
- A keyboard interrupt during generation is not modelled. Python's `except Exception` does not catch it, so it would end the program. Only end of input and an interrupt at the prompt are modelled, and both appear as the end of the lines.
- IsBlank follows Python's `str.isspace` code points. IsExitWord lowers only ASCII letters. For the three exit words this gives the same result as Python's full `lower()`: the only other character that lowers onto one of their letters is U+0130, and it lowers to two characters.
