/**
 * The configuration record of a chat thread and the options that adjust
 * it (chat/thread_option.go), with the defaults of chat/thread.go.
 * Each option checks its argument (or, for the prompt, the value already
 * set) and writes one field; rejected values leave the record unchanged.
 */
module ChatOptions {

  /** Go's `int32`. */
  type Int32 = x: int | -0x8000_0000 <= x < 0x8000_0000

  /** `threadOptions`; `float32` values are modelled as reals. */
  datatype Options = Options(
    prompt: string,
    userRole: string,
    botRole: string,
    temperature: real,
    topK: Int32,
    topP: real,
    historySize: int)

  const DefaultPrompt: string :=
    "You are an English expert, you can help me to improve my English skills. The following are chats between you and me."

  /** The values `NewThread` starts from before it applies any option. */
  const Defaults: Options := Options(DefaultPrompt, "user", "assistant", 0.7, 50, 0.7, 20)

  /** The ranges the options keep every configured field in. */
  predicate InRange(o: Options) {
    && 0.0 < o.temperature <= 1.0
    && 0.0 < o.topP <= 1.0
    && o.topK > 0
    && o.historySize >= 0
    && o.historySize % 2 == 0
  }

  /** Go's `min(v, 1)` on a float. */
  function AtMostOne(v: real): real {
    if v < 1.0 then v else 1.0
  }

  /** A `ThreadOption` closure, identified by the constructor that built it and its argument. */
  datatype ThreadOption =
    | WithPrompt(prompt: string)
    | WithHistorySize(size: int)
    | WithTemperature(temperature: real)
    | WithTopK(topK: Int32)
    | WithTopP(topP: real)
  {
    /** Running the closure on the options record. */
    function Apply(o: Options): (r: Options)
      // the prompt is replaced (even by "") exactly when the prompt already set is non-empty
      ensures WithPrompt? ==> r == o.(prompt := r.prompt)
      ensures WithPrompt? ==> r.prompt == if o.prompt == "" then "" else prompt
      // a positive size is rounded down to the largest even number not above it
      ensures WithHistorySize? ==> r == o.(historySize := r.historySize)
      ensures WithHistorySize? && size > 0 ==>
                r.historySize % 2 == 0 && size - 2 < r.historySize <= size
      ensures WithHistorySize? && size <= 0 ==> r == o
      // a positive temperature or top-p is capped at 1
      ensures WithTemperature? ==> r == o.(temperature := r.temperature)
      ensures WithTemperature? && temperature > 0.0 ==>
                r.temperature <= 1.0 && r.temperature <= temperature &&
                (r.temperature == temperature || r.temperature == 1.0)
      ensures WithTemperature? && temperature <= 0.0 ==> r == o
      ensures WithTopP? ==> r == o.(topP := r.topP)
      ensures WithTopP? && topP > 0.0 ==>
                r.topP <= 1.0 && r.topP <= topP && (r.topP == topP || r.topP == 1.0)
      ensures WithTopP? && topP <= 0.0 ==> r == o
      // a positive top-k is taken as it is
      ensures WithTopK? ==> r == (if topK > 0 then o.(topK := topK) else o)
    {
      match this
      case WithPrompt(p) =>
        if o.prompt != "" then o.(prompt := p) else o
      case WithHistorySize(s) =>
        if s > 0 then o.(historySize := s / 2 * 2) else o
      case WithTemperature(t) =>
        if t > 0.0 then o.(temperature := AtMostOne(t)) else o
      case WithTopK(v) =>
        if v > 0 then o.(topK := v) else o
      case WithTopP(v) =>
        if v > 0.0 then o.(topP := AtMostOne(v)) else o
    }

    /** True when the option's own guard lets its argument through. */
    predicate Accepted() {
      match this
      case WithPrompt(_) => true
      case WithHistorySize(s) => s > 0
      case WithTemperature(t) => t > 0.0
      case WithTopK(v) => v > 0
      case WithTopP(v) => v > 0.0
    }

    /** True when both options write the same field. */
    predicate SameField(other: ThreadOption) {
      match this
      case WithPrompt(_) => other.WithPrompt?
      case WithHistorySize(_) => other.WithHistorySize?
      case WithTemperature(_) => other.WithTemperature?
      case WithTopK(_) => other.WithTopK?
      case WithTopP(_) => other.WithTopP?
    }
  }

  /** The `for _, opt := range opts { opt(&options) }` loop: options apply left to right. */
  function ApplyAll(o: Options, opts: seq<ThreadOption>): Options
  {
    if opts == [] then o else opts[|opts| - 1].Apply(ApplyAll(o, opts[..|opts| - 1]))
  }

  /** Every option is idempotent: running it twice is running it once. */
  lemma ApplyIdempotent(opt: ThreadOption, o: Options)
    ensures opt.Apply(opt.Apply(o)) == opt.Apply(o)
  {
    if opt.WithHistorySize? && opt.size > 0 {
      var h := opt.size / 2 * 2;
      assert h / 2 * 2 == h;
    }
  }

  /** No option takes a field out of its range. */
  lemma ApplyKeepsRange(opt: ThreadOption, o: Options)
    requires InRange(o)
    ensures InRange(opt.Apply(o))
  {
    if opt.WithHistorySize? && opt.size > 0 {
      var h := opt.size / 2 * 2;
      assert h % 2 == 0;
    }
  }

  /** The defaults are in range and stay in range whatever options follow. */
  lemma {:induction false} ConfiguredInRange(opts: seq<ThreadOption>)
    ensures InRange(ApplyAll(Defaults, opts))
  {
    if opts != [] {
      ConfiguredInRange(opts[..|opts| - 1]);
      ApplyKeepsRange(opts[|opts| - 1], ApplyAll(Defaults, opts[..|opts| - 1]));
    }
  }

  /** Applying two option lists one after the other is applying their concatenation. */
  lemma {:induction false} ApplyAllAppend(o: Options, first: seq<ThreadOption>, second: seq<ThreadOption>)
    ensures ApplyAll(o, first + second) == ApplyAll(ApplyAll(o, first), second)
  {
    if second == [] {
      assert first + second == first;
    } else {
      var init := second[..|second| - 1];
      assert (first + second)[..|first + second| - 1] == first + init;
      ApplyAllAppend(o, first, init);
    }
  }

  /**
   * A later option on the same field wins over an earlier one, provided
   * the later one accepts its argument; for the prompt the earlier one
   * must not have emptied the prompt (see EmptyPromptSticks).
   */
  lemma LaterWins(a: ThreadOption, b: ThreadOption, o: Options)
    requires a.SameField(b) && b.Accepted()
    requires a.WithPrompt? ==> a.prompt != ""
    ensures b.Apply(a.Apply(o)) == b.Apply(o)
  {
  }

  /**
   * Because `WithPrompt` tests the prompt already set rather than its
   * argument, `WithPrompt("")` empties the prompt and every later
   * option, `WithPrompt` included, leaves it empty.
   */
  lemma {:induction false} EmptyPromptSticks(o: Options, rest: seq<ThreadOption>)
    ensures ApplyAll(o, [WithPrompt("")] + rest).prompt == ""
  {
    if rest == [] {
      assert [WithPrompt("")] + rest == [WithPrompt("")];
      assert ApplyAll(o, [WithPrompt("")]) == WithPrompt("").Apply(ApplyAll(o, []));
    } else {
      var init := rest[..|rest| - 1];
      assert ([WithPrompt("")] + rest)[..|rest|] == [WithPrompt("")] + init;
      EmptyPromptSticks(o, init);
    }
  }

  /**
   * `WithHistorySize(1)` rounds down to 0: the thread then has no room
   * beside the prompt, and adding a turn to it panics.
   */
  lemma SizeOneLeavesNoHistory(o: Options)
    ensures WithHistorySize(1).Apply(o).historySize == 0
  {
  }
}
