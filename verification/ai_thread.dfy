/**
 * `ai.Thread` (ai/thread.go), the older conversation thread: the system
 * prompt lives in a separate optional field and the history is a list of
 * capacity `historySize`. Once full, each new turn evicts the oldest
 * turn, index 0, by an explicit left-shift loop.
 */
module AiThread {
  import opened Optional
  import opened Messages
  import Window
  import ChatOptions

  /** The options record `NewThread` reads after applying its options, `float32` as real and `int32` as `Int32`. */
  datatype Options = Options(
    systemPrompt: string,
    userRole: string,
    botRole: string,
    temperature: real,
    topK: ChatOptions.Int32,
    topP: real,
    historySize: int)

  class Thread {
    /** Present exactly when a non-empty system prompt was configured. */
    const systemPromptMessage: Option<Message>
    const userRole: string
    const botRole: string
    const temperature: real
    const topP: real
    const topK: ChatOptions.Int32
    /** The capacity of the history, `historySize`. */
    const capacity: nat

    /** The backing array of the `messages` slice; its length is the slice's capacity. */
    const buffer: array<Message>
    /** `len(messages)`. */
    var count: nat
    /** Every turn added since construction, oldest first. */
    ghost var added: seq<Message>

    ghost predicate Valid()
      reads this, buffer
    {
      && buffer.Length == capacity
      && count <= capacity
      && buffer[..count] == Window.Last(added, capacity)
      && (systemPromptMessage.Some? ==>
            systemPromptMessage.value.role == SystemRole && systemPromptMessage.value.content != "")
    }

    /** The history, without the system prompt. */
    function History(): (h: seq<Message>)
      reads this, buffer
      requires Valid()
      ensures |h| <= capacity
      ensures h == Window.Last(added, capacity)
    {
      buffer[..count]
    }

    /**
     * `NewThread` after its options have been applied. `make` refuses a
     * negative capacity, hence the requirement on `historySize`.
     */
    constructor (options: Options)
      requires options.historySize >= 0
      ensures Valid() && fresh(buffer)
      ensures systemPromptMessage.None? <==> options.systemPrompt == ""
      ensures systemPromptMessage.Some? ==>
                systemPromptMessage.value == Message(SystemRole, options.systemPrompt)
      ensures userRole == options.userRole && botRole == options.botRole
      ensures temperature == options.temperature && topP == options.topP && topK == options.topK
      ensures capacity == options.historySize
      ensures History() == [] && added == []
    {
      userRole := options.userRole;
      botRole := options.botRole;
      temperature := options.temperature;
      topP := options.topP;
      topK := options.topK;
      capacity := options.historySize;
      buffer := new Message[options.historySize];
      count := 0;
      added := [];
      systemPromptMessage :=
        if options.systemPrompt != "" then Some(Message(SystemRole, options.systemPrompt)) else None;
      new;
      assert buffer[..count] == [] == Window.Last(added, capacity);
    }

    /** Every answer is added with the bot role, the empty one included. */
    method AddAnswer(answer: string)
      requires Valid() && capacity >= 1
      modifies this, buffer
      ensures Valid()
      ensures added == old(added) + [Message(botRole, answer)]
    {
      var message := Message(botRole, answer);
      AddMessage(message);
    }

    /**
     * `addMessage`: append while there is room; when full, move each
     * slot one place left, dropping index 0, and write the new turn last.
     * With capacity 0 the write goes to index -1, so capacity 1 at least
     * is required.
     */
    method AddMessage(message: Message)
      requires Valid() && capacity >= 1
      modifies this, buffer
      ensures Valid()
      ensures added == old(added) + [message]
      ensures old(count) < capacity ==>
                count == old(count) + 1 && History() == old(History()) + [message]
      ensures old(count) == capacity ==>
                count == old(count) && History() == old(History())[1..] + [message]
    {
      ghost var before := buffer[..count];
      ghost var window := Window.Last(added, capacity);
      Window.LastSnoc(added, message, capacity);
      if count == buffer.Length {
        var i := 0;
        while i < count - 1
          modifies buffer
          invariant |before| == count == buffer.Length
          invariant 0 <= i <= count - 1
          invariant forall k :: 0 <= k < i ==> buffer[k] == before[k + 1]
          invariant forall k :: i <= k < count ==> buffer[k] == before[k]
        {
          buffer[i] := buffer[i + 1];
          i := i + 1;
        }
        buffer[count - 1] := message;
        Window.DropAt(before, buffer[..count], 0, message);
      } else {
        buffer[count] := message;
        count := count + 1;
        assert buffer[..count] == before + [message] == window + [message];
      }
      added := added + [message];
    }

    /**
     * The message list handed to a request: the system prompt, when
     * there is one, in front of the history, however many turns were
     * evicted.
     */
    method GetMessages() returns (ms: seq<Message>)
      requires Valid()
      ensures systemPromptMessage.Some? ==>
                |ms| == |History()| + 1 && ms[0] == systemPromptMessage.value &&
                ms[0].role == SystemRole && ms[1..] == Window.Last(added, capacity)
      ensures systemPromptMessage.None? ==> ms == Window.Last(added, capacity)
    {
      if systemPromptMessage.Some? {
        ms := [systemPromptMessage.value] + buffer[..count];
      } else {
        ms := buffer[..count];
      }
    }

    method GetTemperature() returns (t: real)
      ensures t == temperature
    {
      t := temperature;
    }

    method GetTopP() returns (p: real)
      ensures p == topP
    {
      p := topP;
    }

    method GetTopK() returns (k: ChatOptions.Int32)
      ensures k == topK
    {
      k := topK;
    }
  }
}
