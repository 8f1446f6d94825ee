/** The conversational bot: turning a messaging-app conversation history and a
    new question into the chat message list, and handing that list, together
    with the documents retrieved for the question, to the answering chain. */
module Bot {
  import opened Wrappers
  import opened Messages

  /** One entry of the conversation history as the messaging front end sends it:
      a record read with `get`, so either field may be missing. */
  datatype HistoryEntry = HistoryEntry(fromMe: Option<bool>, body: Option<string>)

  /** A document returned by the retriever; only its text is of interest here. */
  datatype Document = Document(pageContent: string)

  /** The record handed to the answering chain: the retrieved documents that fill
      the prompt's context slot and the messages that fill its message slot. */
  datatype ChainInput = ChainInput(context: seq<Document>, messages: seq<Message>)

  /** The error raised by a backend call (retrieval or generation), passed on unchanged. */
  datatype BackendError = BackendError(reason: string)

  /** The vector-store retriever: documents for a query, or the error it raised. */
  type Retriever = string -> Result<seq<Document>, BackendError>

  /** The document chain built from the chat model and the fixed persona prompt:
      the generated answer for a filled-in prompt, or the error it raised. */
  type AnswerChain = ChainInput -> Result<string, BackendError>

  /** Truthiness of a looked-up `fromMe` value: only a present `true` counts. */
  predicate Truthy(fromMe: Option<bool>) {
    fromMe == Some(true)
  }

  /** The message one history entry becomes. */
  function EntryMessage(entry: HistoryEntry): (m: Message)
    ensures m.role == Human <==> Truthy(entry.fromMe)
    ensures m.content == entry.body
  {
    if Truthy(entry.fromMe) then HumanMessage(entry.body) else AIMessage(entry.body)
  }

  /** The messages the history entries become, in the history's order. */
  function HistoryMessages(history: seq<HistoryEntry>): (ms: seq<Message>)
    ensures |ms| == |history|
  {
    if history == [] then [] else [EntryMessage(history[0])] + HistoryMessages(history[1..])
  }

  /** The full message list for a history and a question: the converted history
      followed by the question as a human message. */
  function MessageList(history: seq<HistoryEntry>, question: string): seq<Message> {
    HistoryMessages(history) + [HumanMessage(Some(question))]
  }

  /** The bot. Its retriever and answering chain are fixed when it is built and
      never change; each call to Invoke is independent of every other. */
  class AIBot {
    const retrieve: Retriever
    const answer: AnswerChain

    constructor (retrieve: Retriever, answer: AnswerChain)
      ensures this.retrieve == retrieve && this.answer == answer
    {
      this.retrieve := retrieve;
      this.answer := answer;
    }

    /** Builds the chat message list by appending one message per history entry
        to an initially empty list, then the question as a human message. */
    method BuildMessages(history: seq<HistoryEntry>, question: string) returns (messages: seq<Message>)
      ensures messages == MessageList(history, question)
    {
      messages := [];
      for i := 0 to |history|
        invariant messages == HistoryMessages(history[..i])
      {
        assert history[..i + 1] == history[..i] + [history[i]];
        HistoryMessagesAppend(history[..i], [history[i]]);
        messages := messages + [EntryMessage(history[i])];
      }
      assert history[..|history|] == history;
      messages := messages + [HumanMessage(Some(question))];
    }

    /** Answers a question: retrieves documents for the question alone, then runs
        the answering chain on those documents and the built message list.
        An error from either backend call is returned unchanged. */
    method Invoke(history: seq<HistoryEntry>, question: string) returns (r: Result<string, BackendError>)
      ensures retrieve(question).Failure? ==> r == Failure(retrieve(question).error)
      ensures retrieve(question).Success? ==>
                r == answer(ChainInput(retrieve(question).value, MessageList(history, question)))
    {
      var docs := retrieve(question);
      if docs.Failure? {
        return Failure(docs.error);
      }
      var messages := BuildMessages(history, question);
      r := answer(ChainInput(docs.value, messages));
    }
  }

  /** The i-th converted message comes from the i-th history entry. */
  lemma {:induction false} HistoryMessagesAt(history: seq<HistoryEntry>, i: nat)
    requires i < |history|
    ensures HistoryMessages(history)[i] == EntryMessage(history[i])
  {
    if i > 0 {
      HistoryMessagesAt(history[1..], i - 1);
    }
  }

  /** Converting a concatenation converts each part separately. */
  lemma {:induction false} HistoryMessagesAppend(front: seq<HistoryEntry>, back: seq<HistoryEntry>)
    ensures HistoryMessages(front + back) == HistoryMessages(front) + HistoryMessages(back)
  {
    if front != [] {
      assert (front + back)[1..] == front[1..] + back;
      HistoryMessagesAppend(front[1..], back);
    } else {
      assert front + back == back;
    }
  }

  /** There is one message per history entry plus one for the question. */
  lemma MessageListLength(history: seq<HistoryEntry>, question: string)
    ensures |MessageList(history, question)| == |history| + 1
  {
  }

  /** The last message is the question, attributed to the human side. */
  lemma MessageListLast(history: seq<HistoryEntry>, question: string)
    ensures MessageList(history, question)[|history|] == Message(Human, Some(question))
  {
  }

  /** A history message is human exactly when its entry's `fromMe` is truthy;
      in particular an entry without `fromMe` gives an AI message. */
  lemma MessageListRoles(history: seq<HistoryEntry>, question: string, i: nat)
    requires i < |history|
    ensures MessageList(history, question)[i].role == Human <==> history[i].fromMe == Some(true)
    ensures MessageList(history, question)[i].role == AI <==> history[i].fromMe != Some(true)
    ensures history[i].fromMe.None? ==> MessageList(history, question)[i].role == AI
  {
    HistoryMessagesAt(history, i);
  }

  /** A history message carries its entry's body; a missing body gives no content. */
  lemma MessageListContents(history: seq<HistoryEntry>, question: string, i: nat)
    requires i < |history|
    ensures MessageList(history, question)[i].content == history[i].body
    ensures history[i].body.None? ==> MessageList(history, question)[i].content.None?
  {
    HistoryMessagesAt(history, i);
  }

  /** Order is preserved: message i depends on history entry i and on nothing else,
      neither the other entries nor the question. */
  lemma MessageListLocal(h1: seq<HistoryEntry>, q1: string, h2: seq<HistoryEntry>, q2: string, i: nat)
    requires i < |h1| && i < |h2| && h1[i] == h2[i]
    ensures MessageList(h1, q1)[i] == MessageList(h2, q2)[i]
  {
    HistoryMessagesAt(h1, i);
    HistoryMessagesAt(h2, i);
  }

  /** An empty history gives the question alone. */
  lemma MessageListEmpty(question: string)
    ensures MessageList([], question) == [Message(Human, Some(question))]
  {
  }

  /** Extending the history by one entry inserts that entry's message just before
      the question and leaves the earlier messages as they were. */
  lemma MessageListSnoc(history: seq<HistoryEntry>, entry: HistoryEntry, question: string)
    ensures MessageList(history + [entry], question)
         == MessageList(history, question)[..|history|] + [EntryMessage(entry)] + [Message(Human, Some(question))]
  {
    HistoryMessagesAppend(history, [entry]);
    assert MessageList(history, question)[..|history|] == HistoryMessages(history);
  }

  /** Two entries give the same message exactly when they agree on the truthiness
      of `fromMe` and on the body: the conversion forgets only whether a false
      `fromMe` was present. */
  lemma EntryMessageSame(e1: HistoryEntry, e2: HistoryEntry)
    ensures EntryMessage(e1) == EntryMessage(e2)
        <==> (Truthy(e1.fromMe) <==> Truthy(e2.fromMe)) && e1.body == e2.body
  {
  }

  /** Two histories give the same message list exactly when they have the same
      length and their entries agree pairwise on truthiness and body. */
  lemma MessageListSame(h1: seq<HistoryEntry>, h2: seq<HistoryEntry>, question: string)
    ensures MessageList(h1, question) == MessageList(h2, question)
        <==> |h1| == |h2|
             && forall i :: 0 <= i < |h1| ==>
                  (Truthy(h1[i].fromMe) <==> Truthy(h2[i].fromMe)) && h1[i].body == h2[i].body
  {
    if MessageList(h1, question) == MessageList(h2, question) {
      assert |h1| == |h2|;
      forall i | 0 <= i < |h1|
        ensures (Truthy(h1[i].fromMe) <==> Truthy(h2[i].fromMe)) && h1[i].body == h2[i].body
      {
        assert MessageList(h1, question)[i] == MessageList(h2, question)[i];
        HistoryMessagesAt(h1, i);
        HistoryMessagesAt(h2, i);
      }
    }
    if |h1| == |h2|
       && forall i :: 0 <= i < |h1| ==>
            (Truthy(h1[i].fromMe) <==> Truthy(h2[i].fromMe)) && h1[i].body == h2[i].body
    {
      forall i | 0 <= i < |h1|
        ensures HistoryMessages(h1)[i] == HistoryMessages(h2)[i]
      {
        HistoryMessagesAt(h1, i);
        HistoryMessagesAt(h2, i);
      }
      assert HistoryMessages(h1) == HistoryMessages(h2);
    }
  }

  /** The history entry a message could have come from, with `fromMe` always present. */
  function EntryOf(m: Message): HistoryEntry {
    HistoryEntry(Some(m.role == Human), m.content)
  }

  /** The history a message list could have come from. */
  function HistoryOf(ms: seq<Message>): (h: seq<HistoryEntry>)
    ensures |h| == |ms|
  {
    if ms == [] then [] else [EntryOf(ms[0])] + HistoryOf(ms[1..])
  }

  /** Every list of messages is the conversion of some history: reading messages
      back as entries and building the list again gives those messages, then the question. */
  lemma {:induction false} MessageListOfHistoryOf(ms: seq<Message>, question: string)
    ensures MessageList(HistoryOf(ms), question) == ms + [Message(Human, Some(question))]
  {
    HistoryMessagesOfHistoryOf(ms);
  }

  /** Converting the history read back from messages gives those messages. */
  lemma {:induction false} HistoryMessagesOfHistoryOf(ms: seq<Message>)
    ensures HistoryMessages(HistoryOf(ms)) == ms
  {
    if ms != [] {
      HistoryMessagesOfHistoryOf(ms[1..]);
      assert HistoryOf(ms)[1..] == HistoryOf(ms[1..]);
    }
  }

  /** The two-turn conversation: a human greeting, an AI reply, then the question. */
  lemma ExampleConversation()
    ensures MessageList([HistoryEntry(Some(true), Some("Oi")), HistoryEntry(Some(false), Some("Olá!"))], "E força?")
         == [Message(Human, Some("Oi")), Message(AI, Some("Olá!")), Message(Human, Some("E força?"))]
  {
  }
}
