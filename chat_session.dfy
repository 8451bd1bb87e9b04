/** The chat page's session state (`st.session_state`): a message history and a
    token counter, filled in on first use and updated once per chat exchange. The
    language-model call is outside the model: its reply and the callback's
    `total_tokens` are inputs. */
module ChatSession {
  import opened Wrappers

  const Human := "human"
  const Ai := "ai"

  /** `Message(origin, message)`; the origin is declared as `Literal["human", "ai"]`. */
  datatype Message = Message(origin: string, message: string)

  predicate ValidOrigin(origin: string) { origin == Human || origin == Ai }

  /** The conversation chain's settings: `ChatOpenAI(temperature=0, model_name="gpt-4o")`
      with a summary memory. */
  datatype ChainSettings = ChainSettings(temperature: int, modelName: string)

  const DefaultChain := ChainSettings(0, "gpt-4o")

  /** The session fields this page uses; `None` when the key is absent. */
  datatype Snapshot = Snapshot(history: Option<seq<Message>>, tokenCount: Option<int>,
                               conversation: Option<ChainSettings>)

  /** What `initialize_session_state` leaves: each absent field gets its initial
      value and a present field is kept as it is. */
  function Initialized(s: Snapshot): (r: Snapshot)
    ensures r.history.Some? && r.tokenCount.Some? && r.conversation.Some?
    ensures s.history.Some? ==> r.history == s.history
    ensures s.tokenCount.Some? ==> r.tokenCount == s.tokenCount
    ensures s.conversation.Some? ==> r.conversation == s.conversation
    ensures s.history.None? ==> r.history == Some([])
    ensures s.tokenCount.None? ==> r.tokenCount == Some(0)
    ensures s.conversation.None? ==> r.conversation == Some(DefaultChain)
  {
    Snapshot(if s.history.None? then Some([]) else s.history,
             if s.tokenCount.None? then Some(0) else s.tokenCount,
             if s.conversation.None? then Some(DefaultChain) else s.conversation)
  }

  /** Initialising twice is the same as initialising once. */
  lemma InitializedIdempotent(s: Snapshot)
    ensures Initialized(Initialized(s)) == Initialized(s)
  {
  }

  /** The history alternates: human prompts at even positions, replies at odd ones. */
  ghost predicate Alternating(history: seq<Message>)
  {
    && |history| % 2 == 0
    && (forall i :: 0 <= i < |history| ==> history[i].origin == (if i % 2 == 0 then Human else Ai))
  }

  /** How one row of the chat is drawn. */
  datatype ChatRow = ChatRow(icon: string, bubble: string, iconFirst: bool, html: string)

  /** The markup of one bubble: a `div` of classes `chat-bubble` and the bubble class. */
  function BubbleHtml(bubble: string, text: string): string
  {
    "<div class=\"chat-bubble " + bubble + "\">" + text + "</div>"
  }

  /** The history loop's choice of icon, bubble class and column order. The icon and
      the bubble test for "ai"; the column order tests for "human". */
  function Render(m: Message): (row: ChatRow)
    ensures m.origin == Ai ==> row.icon == "static/kkum.png" && row.bubble == "ai-bubble" && row.iconFirst
    ensures m.origin == Human ==> row.icon == "static/tourist.png" && row.bubble == "human-bubble" && !row.iconFirst
    ensures !ValidOrigin(m.origin) ==> row.icon == "static/tourist.png" && row.bubble == "human-bubble" && row.iconFirst
    ensures row.html == BubbleHtml(row.bubble, m.message)
  {
    var bubble := if m.origin == Ai then "ai-bubble" else "human-bubble";
    ChatRow(if m.origin == Ai then "static/kkum.png" else "static/tourist.png",
            bubble, m.origin != Human, BubbleHtml(bubble, m.message))
  }

  /** The message text sits unchanged between the opening and closing tags. */
  lemma BubbleHtmlHoldsMessage(m: Message)
    ensures var html := Render(m).html;
            |html| >= |m.message| + 6
            && html[|html| - 6 - |m.message| .. |html| - 6] == m.message
            && html[|html| - 6..] == "</div>"
  {
    var html := Render(m).html;
    var prefix := "<div class=\"chat-bubble " + Render(m).bubble + "\">";
    assert html == prefix + m.message + "</div>";
  }

  /** For the two declared origins the drawing gives the origin back: the bubble
      class, the icon and the column order each tell "ai" from "human". */
  lemma RenderIdentifiesOrigin(a: Message, b: Message)
    requires ValidOrigin(a.origin) && ValidOrigin(b.origin)
    ensures Render(a).bubble == Render(b).bubble <==> a.origin == b.origin
    ensures Render(a).icon == Render(b).icon <==> a.origin == b.origin
    ensures Render(a).iconFirst == Render(b).iconFirst <==> a.origin == b.origin
  {
  }

  class SessionState {
    var history: Option<seq<Message>>
    var tokenCount: Option<int>
    var conversation: Option<ChainSettings>

    function Snap(): Snapshot
      reads this
    {
      Snapshot(history, tokenCount, conversation)
    }

    /** Every message carries a declared origin and the exchanges alternate. */
    ghost predicate Valid()
      reads this
    {
      history.Some? ==> Alternating(history.value)
    }

    /** A new browser session: no field set. */
    constructor ()
      ensures Snap() == Snapshot(None, None, None) && Valid()
    {
      history, tokenCount, conversation := None, None, None;
    }

    /** `initialize_session_state`. */
    method Initialize()
      requires Valid()
      modifies this
      ensures Valid()
      ensures Snap() == Initialized(old(Snap()))
    {
      if history.None? {
        history := Some([]);
      }
      if tokenCount.None? {
        tokenCount := Some(0);
      }
      if conversation.None? {
        conversation := Some(DefaultChain);
      }
    }

    /** `on_click_callback`: the prompt and the model's reply are appended, in that
        order, and the callback's token total is added to the count. The page calls
        `initialize_session_state` before any callback can run. */
    method OnClick(humanPrompt: string, llmResponse: string, totalTokens: nat)
      requires Valid()
      requires history.Some? && tokenCount.Some?
      modifies this
      ensures Valid()
      ensures history == Some(old(history.value) + [Message(Human, humanPrompt), Message(Ai, llmResponse)])
      ensures tokenCount == Some(old(tokenCount.value) + totalTokens)
      ensures conversation == old(conversation)
    {
      var h := history.value;
      h := h + [Message(Human, humanPrompt), Message(Ai, llmResponse)];
      history := Some(h);
      tokenCount := Some(tokenCount.value + totalTokens);
      AppendExchangeAlternates(old(history.value), humanPrompt, llmResponse);
    }
  }

  /** Appending a human prompt and then an AI reply keeps the history alternating,
      leaves every earlier entry where it was, and adds exactly two entries. */
  lemma AppendExchangeAlternates(history: seq<Message>, prompt: string, reply: string)
    requires Alternating(history)
    ensures var h := history + [Message(Human, prompt), Message(Ai, reply)];
            Alternating(h) && |h| == |history| + 2 && h[..|history|] == history
  {
    var h := history + [Message(Human, prompt), Message(Ai, reply)];
    var n := |history|;
    forall i | 0 <= i < |h| ensures h[i].origin == (if i % 2 == 0 then Human else Ai) {
      if i < n {
        assert h[i] == history[i];
      } else if i == n {
        assert i % 2 == 0;
      } else {
        assert i == n + 1 && i % 2 == 1;
      }
    }
  }

  /** Every message of an alternating history has one of the declared origins. */
  lemma AlternatingOrigins(history: seq<Message>)
    requires Alternating(history)
    ensures forall m :: m in history ==> ValidOrigin(m.origin)
  {
    forall m | m in history ensures ValidOrigin(m.origin) {
      var i :| 0 <= i < |history| && history[i] == m;
    }
  }
}
