/**
 * The pre-model hook that compacts the conversation history before each
 * model call (`custom_summarize_llm_input` in app/utils.py).  It keeps the
 * last `n` messages verbatim, hands the older ones to a summarizer, and falls
 * back to the raw older messages when the summarizer raises.  The
 * summarizer (a token-budgeted summarization node) is an oracle: whatever
 * it returns, or that it raises, is a parameter.
 */
module Compaction {
  import opened Wrappers

  /**
   * A value held under a key of the agent state: a list of messages, or
   * anything else, known by the name of its Python type (`NoneType`, `str`, ...).
   */
  datatype Value<M> = MessageList(messages: seq<M>) | OtherValue(typeName: string)

  type StateDict<M> = map<string, Value<M>>

  /**
   * The state handed to the hook: a dictionary, a pydantic model (of the
   * named class), or some other object (of the named type, qualified by its
   * module unless it is a builtin).
   */
  datatype AgentState<M> =
    | DictState(fields: StateDict<M>)
    | ModelState(className: string, fields: StateDict<M>)
    | OtherState(typeName: string)

  /**
   * What the summarizer does with the dictionary it is handed: it may change
   * that dictionary (`argumentAfter` is what it holds afterwards), and it
   * returns a dictionary of its own, returns the one it was handed, or raises.
   */
  datatype SummarizerOutcome<M> =
    | Returned(output: StateDict<M>, argumentAfter: StateDict<M>)
    | ReturnedArgument(argumentAfter: StateDict<M>)
    | Raised(message: string, argumentAfter: StateDict<M>)

  /** The Python exceptions the hook lets escape. */
  datatype PyError = ValueError(message: string) | TypeError(message: string)

  /** The message of slicing the `messages` entry when it is missing (so `None`) or not a list. */
  function NotSubscriptable<M>(fields: StateDict<M>): string
  {
    if MessagesKey in fields && fields[MessagesKey].OtherValue? then
      "'" + fields[MessagesKey].typeName + "' object is not subscriptable"
    else
      "'NoneType' object is not subscriptable"
  }

  /** CPython's message for `x + some_list` when `x`, of the named type, is not a list. */
  function ConcatListError(typeName: string): string
  {
    if typeName == "str" || typeName == "tuple" then
      "can only concatenate " + typeName + " (not \"list\") to " + typeName
    else if typeName == "bytes" || typeName == "bytearray" then
      "can't concat list to " + typeName
    else
      "unsupported operand type(s) for +: '" + typeName + "' and 'list'"
  }

  /** What the hook returns, and the state as it leaves it (it writes one key into a dictionary state). */
  datatype Compacted<M> = Compacted(stateUpdate: StateDict<M>, stateAfter: AgentState<M>)

  const MessagesKey: string := "messages"
  const SummarizeInputKey: string := "messages_to_summarize_input_key"
  const SummarizedOutputKey: string := "summarized_part_output_key"
  const LlmInputKey: string := "llm_input_messages"

  /** Python's normalisation of a slice bound `i` against a length. */
  function SliceBound(i: int, len: nat): (r: nat)
    ensures r <= len
    ensures 0 <= i <= len ==> r == i
    ensures -(len as int) <= i < 0 ==> r as int == len as int + i
  {
    if i < 0 then (if len + i < 0 then 0 else len + i) else if i > len then len else i
  }

  /** `s[:stop]` */
  function SliceTo<M>(s: seq<M>, stop: int): seq<M>
  {
    s[..SliceBound(stop, |s|)]
  }

  /** `s[start:]` */
  function SliceFrom<M>(s: seq<M>, start: int): seq<M>
  {
    s[SliceBound(start, |s|)..]
  }

  /** The messages handed to the summarizer: `messages[:-n]`. */
  function Older<M>(messages: seq<M>, n: int): seq<M>
  {
    SliceTo(messages, -n)
  }

  /** The messages kept verbatim: `messages[-n:]`. */
  function Recent<M>(messages: seq<M>, n: int): seq<M>
  {
    SliceFrom(messages, -n)
  }

  /** The message list of a state, when it has one under "messages". */
  function MessagesOf<M>(fields: StateDict<M>): Option<seq<M>>
  {
    if MessagesKey in fields && fields[MessagesKey].MessageList? then Some(fields[MessagesKey].messages) else None
  }

  /**
   * `custom_summarize_llm_input(state, summarizer, n)`: the state update it
   * returns and the state it leaves behind, or the exception it raises.
   */
  function SummarizeLlmInput<M>(state: AgentState<M>, summarizer: StateDict<M> -> SummarizerOutcome<M>, n: int)
    : Result<Compacted<M>, PyError>
  {
    match state
    case OtherState(typeName) => Failure(ValueError("Invalid input type: <class '" + typeName + "'>"))
    case _ => SummarizeFields(state, summarizer, n)
  }

  /** The hook on a dictionary or model state; only a dictionary state accepts item assignment. */
  function SummarizeFields<M>(state: AgentState<M>, summarizer: StateDict<M> -> SummarizerOutcome<M>, n: int)
    : Result<Compacted<M>, PyError>
    requires !state.OtherState?
  {
    var fields := state.fields;
    match MessagesOf(fields)
    case None => Failure(TypeError(NotSubscriptable(fields)))
    case Some(messages) =>
      var older, recent := Older(messages, n), Recent(messages, n);
      if older == [] then
        Success(Compacted(map[LlmInputKey := MessageList(recent)], state))
      else if state.ModelState? then
        Failure(TypeError("'" + state.className + "' object does not support item assignment"))
      else
        var seen := fields[SummarizeInputKey := MessageList(older)];
        match summarizer(seen)
        case Raised(_, after) =>
          Success(Compacted(map[LlmInputKey := MessageList(older + recent)], DictState(after)))
        case Returned(output, after) =>
          (match WithLlmInput(output, recent)
           case Failure(e) => Failure(e)
           case Success(update) => Success(Compacted(update, DictState(after))))
        case ReturnedArgument(after) =>
          // the update is the state dictionary itself, so the state gets the model input too
          (match WithLlmInput(after, recent)
           case Failure(e) => Failure(e)
           case Success(update) => Success(Compacted(update, DictState(update))))
  }

  /**
   * The summarizer's output with the model input written into it: its
   * summarized list (empty if absent) followed by the recent messages.
   */
  function WithLlmInput<M>(output: StateDict<M>, recent: seq<M>): Result<StateDict<M>, PyError>
  {
    var summarized := if SummarizedOutputKey in output then output[SummarizedOutputKey] else MessageList([]);
    match summarized
    case OtherValue(typeName) => Failure(TypeError(ConcatListError(typeName)))
    case MessageList(summary) => Success(output[LlmInputKey := MessageList(summary + recent)])
  }

  /** The older and recent parts split the history without loss or overlap. */
  lemma OlderRecentSplit<M>(messages: seq<M>, n: int)
    ensures Older(messages, n) + Recent(messages, n) == messages
  {
  }

  /**
   * The recent part is the last `n` messages when 0 < n <= len, and the whole
   * history (with nothing older) when n is 0 or exceeds the length.
   */
  lemma RecentIsLastN<M>(messages: seq<M>, n: int)
    ensures 0 < n <= |messages| ==> Recent(messages, n) == messages[|messages| - n..]
                                    && Older(messages, n) == messages[..|messages| - n]
    ensures n == 0 || n > |messages| ==> Recent(messages, n) == messages && Older(messages, n) == []
  {
  }

  /** The messages sent to the model, when the hook returns normally. */
  function LlmInput<M>(r: Result<Compacted<M>, PyError>): Option<seq<M>>
  {
    if r.Success? && LlmInputKey in r.value.stateUpdate && r.value.stateUpdate[LlmInputKey].MessageList?
    then Some(r.value.stateUpdate[LlmInputKey].messages)
    else None
  }

  /** Whenever the hook returns, the model input ends with the recent messages, verbatim. */
  lemma LlmInputEndsWithRecent<M>(state: AgentState<M>, summarizer: StateDict<M> -> SummarizerOutcome<M>, n: int)
    requires SummarizeLlmInput(state, summarizer, n).Success?
    ensures state.DictState? || state.ModelState?
    ensures MessagesOf(state.fields).Some?
    ensures var input, recent := LlmInput(SummarizeLlmInput(state, summarizer, n)), Recent(MessagesOf(state.fields).value, n);
            input.Some? && |recent| <= |input.value| && input.value[|input.value| - |recent|..] == recent
  {
    var messages := MessagesOf(state.fields).value;
    OlderRecentSplit(messages, n);
  }

  /**
   * With nothing older than the recent part, the summarizer is not consulted
   * (any two summarizers give the same result), the state, a dictionary or a
   * model, is left alone, and the model input is the whole history.
   */
  lemma NothingToSummarize<M>(state: AgentState<M>, s1: StateDict<M> -> SummarizerOutcome<M>,
                              s2: StateDict<M> -> SummarizerOutcome<M>, n: int)
    requires state.DictState? || state.ModelState?
    requires MessagesOf(state.fields).Some? && Older(MessagesOf(state.fields).value, n) == []
    ensures SummarizeLlmInput(state, s1, n) == SummarizeLlmInput(state, s2, n)
    ensures SummarizeLlmInput(state, s1, n)
            == Success(Compacted(map[LlmInputKey := MessageList(MessagesOf(state.fields).value)], state))
  {
    OlderRecentSplit(MessagesOf(state.fields).value, n);
  }

  /**
   * When the summarizer raises, the model gets the original history and the
   * update carries nothing but the model input.
   */
  lemma SummarizerRaises<M>(fields: StateDict<M>, summarizer: StateDict<M> -> SummarizerOutcome<M>, n: int)
    requires MessagesOf(fields).Some? && Older(MessagesOf(fields).value, n) != []
    requires summarizer(fields[SummarizeInputKey := MessageList(Older(MessagesOf(fields).value, n))]).Raised?
    ensures var seen := fields[SummarizeInputKey := MessageList(Older(MessagesOf(fields).value, n))];
            var r := SummarizeLlmInput(DictState(fields), summarizer, n);
            r.Success? && r.value.stateUpdate.Keys == {LlmInputKey}
            && LlmInput(r) == Some(MessagesOf(fields).value)
            && r.value.stateAfter == DictState(summarizer(seen).argumentAfter)
  {
    OlderRecentSplit(MessagesOf(fields).value, n);
  }

  /**
   * When the summarizer returns a dictionary of its own, the model gets its
   * summarized list (empty if absent) followed by the recent messages, every
   * other key it returned is passed on, and the state is what the summarizer
   * left in the dictionary it was shown, which held the older messages under
   * its input key.
   */
  lemma SummarizerReturns<M>(fields: StateDict<M>, summarizer: StateDict<M> -> SummarizerOutcome<M>, n: int)
    requires MessagesOf(fields).Some? && Older(MessagesOf(fields).value, n) != []
    requires var seen := fields[SummarizeInputKey := MessageList(Older(MessagesOf(fields).value, n))];
             summarizer(seen).Returned?
             && (SummarizedOutputKey in summarizer(seen).output ==> summarizer(seen).output[SummarizedOutputKey].MessageList?)
    ensures var seen := fields[SummarizeInputKey := MessageList(Older(MessagesOf(fields).value, n))];
            var output := summarizer(seen).output;
            var summary := if SummarizedOutputKey in output then output[SummarizedOutputKey].messages else [];
            var r := SummarizeLlmInput(DictState(fields), summarizer, n);
            seen[SummarizeInputKey] == MessageList(Older(MessagesOf(fields).value, n))
            && r.Success?
            && LlmInput(r) == Some(summary + Recent(MessagesOf(fields).value, n))
            && r.value.stateUpdate.Keys == output.Keys + {LlmInputKey}
            && (forall k :: k in output && k != LlmInputKey ==> r.value.stateUpdate[k] == output[k])
            && r.value.stateAfter == DictState(summarizer(seen).argumentAfter)
  {
  }

  /**
   * When the summarizer hands back the very dictionary it was shown, the
   * update and the state are one object: the model input is written into the
   * state as well, next to whatever the summarizer left there.
   */
  lemma SummarizerReturnsArgument<M>(fields: StateDict<M>, summarizer: StateDict<M> -> SummarizerOutcome<M>, n: int)
    requires MessagesOf(fields).Some? && Older(MessagesOf(fields).value, n) != []
    requires var seen := fields[SummarizeInputKey := MessageList(Older(MessagesOf(fields).value, n))];
             summarizer(seen).ReturnedArgument?
             && (SummarizedOutputKey in summarizer(seen).argumentAfter
                 ==> summarizer(seen).argumentAfter[SummarizedOutputKey].MessageList?)
    ensures var seen := fields[SummarizeInputKey := MessageList(Older(MessagesOf(fields).value, n))];
            var after := summarizer(seen).argumentAfter;
            var summary := if SummarizedOutputKey in after then after[SummarizedOutputKey].messages else [];
            var r := SummarizeLlmInput(DictState(fields), summarizer, n);
            r.Success?
            && r.value.stateAfter == DictState(r.value.stateUpdate)
            && LlmInput(r) == Some(summary + Recent(MessagesOf(fields).value, n))
            && r.value.stateUpdate.Keys == after.Keys + {LlmInputKey}
            && (forall k :: k in after && k != LlmInputKey ==> r.value.stateUpdate[k] == after[k])
  {
  }

  /**
   * A pydantic-model state with older messages fails when the hook writes
   * into it, before the summarizer is consulted.
   */
  lemma ModelStateCannotBeWritten<M>(className: string, fields: StateDict<M>,
                                     summarizer: StateDict<M> -> SummarizerOutcome<M>, n: int)
    requires MessagesOf(fields).Some? && Older(MessagesOf(fields).value, n) != []
    ensures SummarizeLlmInput(ModelState(className, fields), summarizer, n)
            == Failure(TypeError("'" + className + "' object does not support item assignment"))
  {
  }

  /** A state that is neither a dictionary nor a model is refused, naming its type. */
  lemma OtherStateRefused<M>(typeName: string, summarizer: StateDict<M> -> SummarizerOutcome<M>, n: int)
    ensures SummarizeLlmInput(OtherState(typeName), summarizer, n)
            == Failure(ValueError("Invalid input type: <class '" + typeName + "'>"))
  {
  }

  /**
   * A dictionary or model state without a `messages` list fails at the slice,
   * whatever the summarizer; a missing entry reads as `None`.
   */
  lemma NoMessagesFails<M>(state: AgentState<M>, summarizer: StateDict<M> -> SummarizerOutcome<M>, n: int)
    requires state.DictState? || state.ModelState?
    requires MessagesOf(state.fields).None?
    ensures SummarizeLlmInput(state, summarizer, n) == Failure(TypeError(NotSubscriptable(state.fields)))
    ensures MessagesKey !in state.fields
            ==> SummarizeLlmInput(state, summarizer, n) == Failure(TypeError("'NoneType' object is not subscriptable"))
  {
  }

  /**
   * When the summarizer returns a dictionary whose summarized entry is not a
   * list, the concatenation after the `try` raises; `None` gives CPython's
   * "unsupported operand" message.
   */
  lemma SummaryNotAListFails<M>(fields: StateDict<M>, summarizer: StateDict<M> -> SummarizerOutcome<M>, n: int)
    requires MessagesOf(fields).Some? && Older(MessagesOf(fields).value, n) != []
    requires var seen := fields[SummarizeInputKey := MessageList(Older(MessagesOf(fields).value, n))];
             summarizer(seen).Returned?
             && SummarizedOutputKey in summarizer(seen).output
             && summarizer(seen).output[SummarizedOutputKey].OtherValue?
    ensures var seen := fields[SummarizeInputKey := MessageList(Older(MessagesOf(fields).value, n))];
            var typeName := summarizer(seen).output[SummarizedOutputKey].typeName;
            SummarizeLlmInput(DictState(fields), summarizer, n) == Failure(TypeError(ConcatListError(typeName)))
  {
  }

  /** The concatenation message for a summarized entry that is `None`. */
  lemma ConcatNoneMessage()
    ensures ConcatListError("NoneType") == "unsupported operand type(s) for +: 'NoneType' and 'list'"
  {
  }

  /** The concatenation message for a summarized entry that is a string. */
  lemma ConcatStrMessage()
    ensures ConcatListError("str") == "can only concatenate str (not \"list\") to str"
  {
  }
}
