/**
 * `chat.Thread` (chat/thread.go): a conversation whose message list has
 * a fixed capacity of `historySize + 1`. Slot 0 always holds the system
 * prompt; once the list is full, each new turn evicts the oldest
 * non-system turn by shifting slots 2.. one place left.
 */
module ChatThread {
  import opened Messages
  import opened ChatOptions
  import Window

  class Thread {
    const userRole: string
    const botRole: string
    const temperature: real
    const topP: real
    const topK: Int32
    /** How many non-system turns the thread keeps. */
    const historySize: nat

    /** The backing array of the `messages` slice; its length is the slice's capacity. */
    const buffer: array<Message>
    /** `len(messages)`. */
    var count: nat
    /** Every turn added since construction, oldest first. */
    ghost var added: seq<Message>

    ghost predicate Valid()
      reads this, buffer
    {
      && buffer.Length == historySize + 1
      && 1 <= count <= buffer.Length
      && buffer[0].role == SystemRole
      && buffer[1..count] == Window.Last(added, historySize)
      && historySize % 2 == 0
      && 0.0 < temperature <= 1.0
      && 0.0 < topP <= 1.0
      && topK > 0
    }

    /** The live messages, `messages[:len(messages)]`. */
    function Messages(): (ms: seq<Message>)
      reads this, buffer
      requires Valid()
      ensures 1 <= |ms| <= historySize + 1
      ensures ms[0].role == SystemRole
      ensures ms[1..] == Window.Last(added, historySize)
    {
      buffer[..count]
    }

    /** `NewThread(opts...)`: the options apply in order over the defaults. */
    constructor (opts: seq<ThreadOption>)
      ensures Valid() && fresh(buffer)
      ensures var o := ApplyAll(Defaults, opts);
        && userRole == o.userRole && botRole == o.botRole
        && temperature == o.temperature && topP == o.topP && topK == o.topK
        && historySize == o.historySize
      ensures Messages() == [Message(SystemRole, ApplyAll(Defaults, opts).prompt)]
      ensures added == []
    {
      var options := Defaults;
      for i := 0 to |opts|
        invariant options == ApplyAll(Defaults, opts[..i])
      {
        assert opts[..i + 1][..i] == opts[..i];
        options := opts[i].Apply(options);
      }
      assert opts[..|opts|] == opts;
      ConfiguredInRange(opts);
      var store := new Message[options.historySize + 1];
      store[0] := Message(SystemRole, options.prompt);
      userRole := options.userRole;
      botRole := options.botRole;
      temperature := options.temperature;
      topP := options.topP;
      topK := options.topK;
      historySize := options.historySize;
      buffer := store;
      count := 1;
      added := [];
      new;
      assert buffer[1..count] == [] == Window.Last(added, historySize);
    }

    /** An empty prompt is ignored; otherwise only the content of slot 0 changes. */
    method SetPrompt(prompt: string)
      requires Valid()
      modifies buffer
      ensures Valid()
      ensures prompt == "" ==> Messages() == old(Messages())
      ensures prompt != "" ==> Messages() == [Message(SystemRole, prompt)] + old(Messages())[1..]
    {
      if prompt != "" {
        buffer[0] := buffer[0].(content := prompt);
      }
    }

    /** An empty turn is ignored; otherwise the turn is added with the user role. */
    method AddUserMessage(content: string)
      requires Valid()
      requires content != "" ==> historySize > 0
      modifies this, buffer
      ensures Valid()
      ensures content == "" ==> Messages() == old(Messages()) && added == old(added)
      ensures content != "" ==> added == old(added) + [Message(userRole, content)]
      ensures Messages()[0] == old(Messages())[0]
    {
      if content != "" {
        var message := Message(userRole, content);
        AddMessage(message);
      }
    }

    /** An empty turn is ignored; otherwise the turn is added with the bot role. */
    method AddBotMessage(content: string)
      requires Valid()
      requires content != "" ==> historySize > 0
      modifies this, buffer
      ensures Valid()
      ensures content == "" ==> Messages() == old(Messages()) && added == old(added)
      ensures content != "" ==> added == old(added) + [Message(botRole, content)]
      ensures Messages()[0] == old(Messages())[0]
    {
      if content != "" {
        var message := Message(botRole, content);
        AddMessage(message);
      }
    }

    /**
     * `addMessage`: append while there is room; when full, shift slots
     * 2.. one place left (Go's `copy`, which moves them all at once) and
     * write the new turn last. With `historySize == 0` the list is full
     * from the start and the shift slices past its end, so a positive
     * `historySize` is required.
     */
    method AddMessage(message: Message)
      requires Valid() && historySize > 0
      modifies this, buffer
      ensures Valid()
      ensures added == old(added) + [message]
      ensures old(count) < buffer.Length ==>
                count == old(count) + 1 && Messages() == old(Messages()) + [message]
      ensures old(count) == buffer.Length ==>
                count == old(count) &&
                Messages() == old(Messages())[..1] + old(Messages())[2..] + [message]
    {
      ghost var before := buffer[..count];
      ghost var window := Window.Last(added, historySize);
      Window.LastSnoc(added, message, historySize);
      if count == buffer.Length {
        forall j | 1 <= j < count - 1 {
          buffer[j] := buffer[j + 1];
        }
        buffer[count - 1] := message;
        Window.DropAt(before, buffer[..count], 1, message);
        assert before[1..] == window;
        assert buffer[1..count] == buffer[..count][1..] == window[1..] + [message];
      } else {
        buffer[count] := message;
        count := count + 1;
        assert buffer[..count] == before + [message];
        assert buffer[1..count] == window + [message];
      }
      added := added + [message];
    }

    /** The message list handed to a request: the system prompt, then the window of recent turns. */
    method GetMessages() returns (ms: seq<Message>)
      requires Valid()
      ensures ms == Messages()
      ensures |ms| >= 1 && ms[0].role == SystemRole
      ensures ms[1..] == Window.Last(added, historySize)
    {
      ms := buffer[..count];
    }

    method GetTemperature() returns (t: real)
      requires Valid()
      ensures t == temperature && 0.0 < t <= 1.0
    {
      t := temperature;
    }

    method GetTopP() returns (p: real)
      requires Valid()
      ensures p == topP && 0.0 < p <= 1.0
    {
      p := topP;
    }

    method GetTopK() returns (k: Int32)
      requires Valid()
      ensures k == topK && k > 0
    {
      k := topK;
    }
  }
}
