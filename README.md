# WhatsApp physics-tutor bot: message building, verified

This project models the one piece of logic the bot owns. Before it asks the language model
for an answer, the bot turns the conversation history sent by the WhatsApp front end into a
chat message list. Each history entry is a record that the bot reads with `get`. An entry
whose `fromMe` is truthy becomes a human message. Every other entry becomes an AI message,
including one with no `fromMe` at all. The content of each message is the entry's `body`.
The question is then appended as a final human message. The project also models how
`invoke` wires that list into the answering chain. The bot retrieves documents for the
question alone. It then runs the chain on those documents and the message list, and
returns the chain's answer or its error unchanged.

Files:
- `wrappers.dfy`: `Option` (a lookup that may find nothing) and `Result` (a value or the error raised).
- `messages.dfy`: the chat message shapes, `Role = Human | AI` and `Message(role, content)`.
- `ai_bot.dfy`: the history entry record and the specification functions `EntryMessage`,
  `HistoryMessages` and `MessageList`. `MessageList` is the specification of `__build_messages`
  (bot/ai_bot.py:28-34), and the lemmas in the table below are its properties. It also holds the class `AIBot`, whose `BuildMessages`
  loop is proved equal to `MessageList` and whose `Invoke` states the wiring, plus the
  lemmas about the message list.

Modelling decisions:
- A `get` lookup gives `Option`. So `fromMe` is `Option<bool>` and `body` is `Option<string>`.
  `fromMe` is normally a boolean, but the code reads it with `get`, so a missing key is accepted
  too and gives an AI message. The predicate `Bot.Truthy` renders the truthiness test of
  bot/ai_bot.py:31: only `Some(true)` is truthy.
- Message content is `Option<string>`. A missing body passes through as `None`, exactly as the
  code passes `get('body')` on.
- The retriever and the answering chain are given to the bot when it is built (the `AIBot`
  constructor, standing for `__init__` at bot/ai_bot.py:13-15). Each is a total function that returns a `Result`. An error either one raises
  is a `Failure` that `Invoke` returns unchanged.
- A `true` `fromMe` gives a human message. This polarity is kept literally, even though
  `fromMe` usually marks the bot's own outgoing messages.

## Model

| member | source | states |
|---|---|---|
| `Bot.AIBot.BuildMessages` | bot/ai_bot.py:28-34 | the list built by appending one message per history entry to an empty list, then the question, is exactly `MessageList(history, question)`; the method has no `modifies` clause, so the history and the rest of the state are untouched |
| `Bot.AIBot.constructor` | bot/ai_bot.py:13-15 | the bot keeps the retriever and the answering chain it is given, which stand for the chat model and the retriever that `__init__` builds |
| `Bot.AIBot.Invoke` | bot/ai_bot.py:58-72 | retrieval is asked with the question alone; if it fails, the result is the retrieval error, whatever the chain would return; otherwise the result is what the chain returns for the retrieved documents (even none) and exactly `MessageList(history, question)` as messages, error included |
| `Bot.EntryMessage` | bot/ai_bot.py:31-32 | an entry's message is human if and only if its `fromMe` is truthy, and its content is the entry's body |
| `Bot.HistoryMessages` | bot/ai_bot.py:30-32 | there is one converted message per history entry |
| `Bot.HistoryMessagesAt` | bot/ai_bot.py:30-32 | converted message i is the conversion of history entry i |
| `Bot.HistoryMessagesAppend` | bot/ai_bot.py:30-32 | the loop's conversion is element-wise: converting a concatenation converts each part in order |
| `Bot.MessageListLength` | bot/ai_bot.py:29-34 | the list has exactly one message more than the history |
| `Bot.MessageListLast` | bot/ai_bot.py:33 | the last message is a human message whose content is the question |
| `Bot.MessageListRoles` | bot/ai_bot.py:31 | message i is human if and only if entry i's `fromMe` is present and true, and AI otherwise, in particular when `fromMe` is missing |
| `Bot.MessageListContents` | bot/ai_bot.py:32 | message i's content is entry i's body; a missing body gives no content |
| `Bot.MessageListLocal` | bot/ai_bot.py:30-32 | order is preserved: message i depends only on entry i, not on other entries or the question |
| `Bot.MessageListEmpty` | bot/ai_bot.py:29-33 | an empty history gives the one-message list holding the question as a human message |
| `Bot.MessageListSnoc` | bot/ai_bot.py:30-33 | appending an entry to the history inserts its message just before the question and leaves the earlier messages as they were |
| `Bot.EntryMessageSame` | bot/ai_bot.py:31-32 | two entries give the same message if and only if they agree on the truthiness of `fromMe` and on the body |
| `Bot.HistoryMessagesOfHistoryOf` | bot/ai_bot.py:30-32 | reading messages back as history entries and converting them again gives the same messages |
| `Bot.MessageListOfHistoryOf` | bot/ai_bot.py:28-34 | every message list followed by the question is the result for some history |
| `Bot.MessageListSame` | bot/ai_bot.py:28-34 | two histories give the same message list for a question if and only if they have the same length and agree, entry by entry, on the truthiness of `fromMe` and on the body: the conversion loses nothing but the difference between a false and a missing `fromMe` |
| `Bot.ExampleConversation` | bot/ai_bot.py:28-34 | a human greeting, an AI reply and a question become human, AI, human messages with those contents |

## Left out

- Loading `GROQ_API_KEY` into the process environment at import time (bot/ai_bot.py:10): this is environment I/O.
- Building the Groq chat model and the Chroma retriever over HuggingFace embeddings with `k=30` (bot/ai_bot.py:13-26): these are foreign clients, on-disk index access and floating-point embeddings. The model takes the retriever as a parameter, so it does not bound the number of documents at 30.
- The persona prompt text, and the prompt and chain built from it (bot/ai_bot.py:37-57, 59-65): the prompt is configuration. The document chain built from it and the chat model is the `AnswerChain` parameter, and how that chain puts the documents into the context slot is not modelled.
- Bot.AIBot.Invoke: the retriever and the chain are pure functions, so the model does not capture that a language model may answer the same input differently on two calls. It also does not capture latency or a call that hangs.
- Python truthiness of arbitrary `fromMe` values is abstracted to `Option<bool>`, where only a present `true` is truthy.
- Whether the message library accepts a missing (`None`) content: that is behaviour of the library, and it is not part of this model. The model passes `None` on as the content. If the library rejects `content=None`, the program instead raises at bot/ai_bot.py:32, after retrieval and before the chain runs, so `Invoke` then returns an answer or chain error where the program raises.
