/**
 * The chat endpoint (app/main.py): the two rate limiters that gate `/chat`,
 * the readiness check, the server-sent-event stream built from the agent's
 * output chunks, and the `goodbye` acknowledgement.  The agent is an oracle:
 * the chunks it yields, and whether it then raises, are a parameter.
 */
module Chat {
  import opened Wrappers
  import opened Text
  import Json
  import RateLimit

  /** The `content` attribute of an agent message: a string, or something else (a list of parts). */
  datatype Content = TextContent(text: string) | OtherContent

  /** An agent message; `None` when it has no `content` attribute at all. */
  datatype AgentMessage = AgentMessage(content: Option<Content>)

  /** The value under `"messages"` in the agent's update. */
  datatype MessagesField = MessageSeq(items: seq<AgentMessage>) | NotAList

  /** The value under `"agent"` in a chunk: a dictionary (maybe with `"messages"`) or something else. */
  datatype AgentUpdate = AgentDict(messages: Option<MessagesField>) | NotADict

  /** One chunk of `agent.astream`; only its `"agent"` entry matters to the stream. */
  datatype Chunk = Chunk(agent: Option<AgentUpdate>)

  /** What the agent does for one request: yields these chunks, then finishes or raises. */
  datatype Upstream = Upstream(chunks: seq<Chunk>, raises: Option<string>)

  /** The events of a stream: tokens, then exactly one terminator. */
  datatype StreamEvent = Token(text: string) | End | Error(message: string)

  /** The message whose content a chunk would display, if the chunk has one. */
  function LastAgentMessage(chunk: Chunk): Option<AgentMessage>
  {
    match chunk.agent
    case Some(AgentDict(Some(MessageSeq(items)))) => if items == [] then None else Some(items[|items| - 1])
    case _ => None
  }

  /**
   * The displayable text of a chunk: the full, unstripped content of the last
   * agent message, provided it is a string that is not blank.
   */
  function ExtractToken(chunk: Chunk): (r: Option<string>)
    ensures r.Some? ==> PyStrip(r.value) != []
    ensures r.Some? ==> LastAgentMessage(chunk) == Some(AgentMessage(Some(TextContent(r.value))))
    ensures r.None? ==> forall t :: LastAgentMessage(chunk) == Some(AgentMessage(Some(TextContent(t)))) ==> PyStrip(t) == []
  {
    match LastAgentMessage(chunk)
    case Some(AgentMessage(Some(TextContent(t)))) => if PyStrip(t) != [] then Some(t) else None
    case _ => None
  }

  /** The tokens one chunk contributes: its displayable text, or nothing. */
  function ChunkTokens(c: Chunk): seq<string>
  {
    match ExtractToken(c) case Some(t) => [t] case None => []
  }

  /** The tokens of a run of chunks, in order; chunks without displayable text contribute nothing. */
  function Tokens(chunks: seq<Chunk>): seq<string>
  {
    if chunks == [] then [] else ChunkTokens(chunks[0]) + Tokens(chunks[1..])
  }

  /** How many chunks carry displayable text. */
  function CountDisplayable(chunks: seq<Chunk>): nat
  {
    if chunks == [] then 0 else (if ExtractToken(chunks[0]).Some? then 1 else 0) + CountDisplayable(chunks[1..])
  }

  function TokenEvents(tokens: seq<string>): seq<StreamEvent>
  {
    seq(|tokens|, i requires 0 <= i < |tokens| => Token(tokens[i]))
  }

  /** The events of a whole stream: one token per displayable chunk, then `End` or `Error`. */
  function Events(up: Upstream): seq<StreamEvent>
  {
    TokenEvents(Tokens(up.chunks)) + [if up.raises.Some? then Error(up.raises.value) else End]
  }

  /** The JSON object an event is sent as. */
  function PayloadOf(e: StreamEvent): Json.Payload
  {
    match e
    case Token(t) => Json.Payload("token", t)
    case End => Json.Payload("event", "end")
    case Error(m) => Json.Payload("error", m)
  }

  /** One server-sent event on the wire: `data: <json>` and a blank line. */
  function Frame(e: StreamEvent): string
  {
    "data: " + Json.Encode(PayloadOf(e)) + "\n\n"
  }

  function Frames(events: seq<StreamEvent>): seq<string>
  {
    seq(|events|, i requires 0 <= i < |events| => Frame(events[i]))
  }

  /** `event_stream`: the frames sent for one request, in order. */
  method EventStream(up: Upstream) returns (frames: seq<string>)
    ensures frames == Frames(Events(up))
  {
    frames := [];
    var i := 0;
    while i < |up.chunks|
      invariant 0 <= i <= |up.chunks|
      invariant frames == Frames(TokenEvents(Tokens(up.chunks[..i])))
    {
      var token := ExtractToken(up.chunks[i]);
      StreamStep(up.chunks, i);
      if token.Some? {
        TokenFrames(token.value);
        frames := frames + [Frame(Token(token.value))];
      }
      i := i + 1;
    }
    assert up.chunks[..i] == up.chunks;
    var last := if up.raises.Some? then Error(up.raises.value) else End;
    frames := frames + [Frame(last)];
    FramesAppend(TokenEvents(Tokens(up.chunks)), [last]);
    FramesOne(last);
  }

  lemma FramesAppend(a: seq<StreamEvent>, b: seq<StreamEvent>)
    ensures Frames(a + b) == Frames(a) + Frames(b)
  {
    var l, r := Frames(a + b), Frames(a) + Frames(b);
    forall i | 0 <= i < |l|
      ensures l[i] == r[i]
    {
      if i < |a| {
        assert (a + b)[i] == a[i];
      } else {
        assert (a + b)[i] == b[i - |a|];
      }
    }
  }

  lemma TokenEventsAppend(a: seq<string>, b: seq<string>)
    ensures TokenEvents(a + b) == TokenEvents(a) + TokenEvents(b)
  {
  }

  /** The tokens of one more chunk are appended after those of the chunks before it. */
  lemma {:induction false} TokensAppend(chunks: seq<Chunk>, c: Chunk)
    ensures Tokens(chunks + [c]) == Tokens(chunks) + ChunkTokens(c)
  {
    if chunks != [] {
      TokensAppend(chunks[1..], c);
      assert (chunks + [c])[1..] == chunks[1..] + [c];
    } else {
      assert [] + [c] == [c];
    }
  }

  /** One loop step of the stream: the frames of one more chunk follow the earlier ones. */
  lemma StreamStep(chunks: seq<Chunk>, i: int)
    requires 0 <= i < |chunks|
    ensures Frames(TokenEvents(Tokens(chunks[..i + 1])))
            == Frames(TokenEvents(Tokens(chunks[..i]))) + Frames(TokenEvents(ChunkTokens(chunks[i])))
  {
    assert chunks[..i + 1] == chunks[..i] + [chunks[i]];
    TokensAppend(chunks[..i], chunks[i]);
    TokenFramesAppend(Tokens(chunks[..i]), ChunkTokens(chunks[i]));
  }

  /** A single token is sent as a single frame. */
  lemma TokenFrames(t: string)
    ensures Frames(TokenEvents([t])) == [Frame(Token(t))]
  {
    assert TokenEvents([t]) == [Token(t)];
    FramesOne(Token(t));
  }

  lemma FramesOne(e: StreamEvent)
    ensures Frames([e]) == [Frame(e)]
  {
  }

  /** The frames of two runs of tokens are the first run's frames, then the second's. */
  lemma TokenFramesAppend(a: seq<string>, b: seq<string>)
    ensures Frames(TokenEvents(a + b)) == Frames(TokenEvents(a)) + Frames(TokenEvents(b))
  {
    TokenEventsAppend(a, b);
    FramesAppend(TokenEvents(a), TokenEvents(b));
  }

  /** There is one token per displayable chunk. */
  lemma {:induction false} TokensCount(chunks: seq<Chunk>)
    ensures |Tokens(chunks)| == CountDisplayable(chunks)
  {
    if chunks != [] {
      TokensCount(chunks[1..]);
    }
  }

  /**
   * A stream is its tokens, one per displayable chunk in upstream order,
   * followed by exactly one terminator: `End` when the agent finished and
   * `Error` with the exception's text when it raised.
   */
  lemma EventsShape(up: Upstream)
    ensures var ev := Events(up);
            |ev| == CountDisplayable(up.chunks) + 1
            && (forall i :: 0 <= i < |ev| - 1 ==> ev[i] == Token(Tokens(up.chunks)[i]))
            && (up.raises.None? ==> ev[|ev| - 1] == End)
            && (up.raises.Some? ==> ev[|ev| - 1] == Error(up.raises.value))
            && (forall i :: 0 <= i < |ev| && !ev[i].Token? ==> i == |ev| - 1)
  {
    TokensCount(up.chunks);
  }

  /** Every frame is `data: ` followed by a JSON object on one line and a blank line. */
  lemma FrameLayout(e: StreamEvent)
    ensures var f, j := Frame(e), Json.Encode(PayloadOf(e));
            f == "data: " + j + "\n\n" && Json.Parse(j) == Some(PayloadOf(e))
            && forall i :: 0 <= i < |j| ==> j[i] != '\n' && j[i] != '\r'
  {
    Json.ParseEncode(PayloadOf(e));
    Json.EncodePrintable(PayloadOf(e));
  }

  /** Limits of the two limiters that guard `/chat`. */
  const IpChatLimit := 10
  const IpChatWindow := 120
  const GlobalChatLimit := 60
  const GlobalChatWindow := 3600

  /** The two limiters of `/chat`, sharing the one counter table. */
  method ChatLimiters(table: RateLimit.CounterTable) returns (ip: RateLimit.RateLimiter, global: RateLimit.RateLimiter)
    ensures ip.table == table && global.table == table
    ensures ip.requestsLimit == IpChatLimit && ip.timeWindow == IpChatWindow && ip.limitType == RateLimit.IpPath
    ensures global.requestsLimit == GlobalChatLimit && global.timeWindow == GlobalChatWindow
            && global.limitType == RateLimit.GlobalPath
  {
    ip := new RateLimit.RateLimiter(IpChatLimit, IpChatWindow, RateLimit.IpPath, table);
    global := new RateLimit.RateLimiter(GlobalChatLimit, GlobalChatWindow, RateLimit.GlobalPath, table);
  }

  /** The response to a `/chat` request. */
  datatype ChatResponse =
    | Rejected(decision: RateLimit.Decision)   // a limiter refused (429) or was misconfigured
    | ServiceUnavailable                       // 503: the checkpointer or the agent is not initialised
    | Streamed(frames: seq<string>)            // the event stream

  /**
   * `/chat`: the per-caller limiter, then the global one (FastAPI resolves the
   * dependencies in order, before the handler runs), then the readiness
   * check, then the stream.
   */
  method HandleChat(ipLimiter: RateLimit.RateLimiter, globalLimiter: RateLimit.RateLimiter,
                    memoryReady: bool, agentReady: bool,
                    clientIp: string, routePath: string, now: int, up: Upstream)
    returns (resp: ChatResponse)
    requires ipLimiter.table == globalLimiter.table
    modifies ipLimiter.table
    ensures var (d1, m1) := RateLimit.Check(old(ipLimiter.table.counters), ipLimiter.limitType, ipLimiter.requestsLimit,
                                            ipLimiter.timeWindow, clientIp, routePath, now);
            var (d2, m2) := RateLimit.Check(m1, globalLimiter.limitType, globalLimiter.requestsLimit,
                                            globalLimiter.timeWindow, clientIp, routePath, now);
            if d1 != RateLimit.Admitted then resp == Rejected(d1) && ipLimiter.table.counters == m1
            else if d2 != RateLimit.Admitted then resp == Rejected(d2) && ipLimiter.table.counters == m2
            else ipLimiter.table.counters == m2
                 && resp == if memoryReady && agentReady then Streamed(Frames(Events(up))) else ServiceUnavailable
  {
    var d1 := ipLimiter.Call(clientIp, routePath, now);
    if d1 != RateLimit.Admitted {
      return Rejected(d1);
    }
    var d2 := globalLimiter.Call(clientIp, routePath, now);
    if d2 != RateLimit.Admitted {
      return Rejected(d2);
    }
    if !memoryReady || !agentReady {
      return ServiceUnavailable;
    }
    var frames := EventStream(up);
    resp := Streamed(frames);
  }

  /** The acknowledgement of `/goodbye`. */
  datatype GoodbyeResponse = GoodbyeResponse(status: string, threadId: string, message: string)

  /**
   * `/goodbye`: acknowledges the thread and deletes nothing; it reads and
   * writes no state, so the checkpoint store keeps the conversation.
   */
  function Goodbye(threadId: string): (r: GoodbyeResponse)
    ensures r.status == GoodbyeStatus && r.threadId == threadId
  {
    GoodbyeResponse(GoodbyeStatus, threadId, GoodbyeMessage)
  }

  const GoodbyeStatus := "request_logged_sqlite_no_delete_action"
  const GoodbyeMessage := "SqliteSaver is in use. Specific thread deletion is not automatically performed by this endpoint."
}
