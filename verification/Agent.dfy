// The chat agent's tool-use loop, against any model and any tools.

module Agent {
  import opened Wrappers
  import opened Json

  const MAX_TOOL_ITERATIONS := 10

  datatype Role = User | Assistant

  datatype Content =
    | Text(text: string)
    | ToolUse(id: string, name: string, input: Json)
    | ToolResult(toolUseId: string, content: string, isError: bool)

  datatype Message = Message(role: Role, content: seq<Content>)

  // One model call: it fails, or replies and maybe stops to use tools.
  datatype Reply = Failure(message: string) | Response(content: seq<Content>, toolUse: bool)

  datatype Event =
    | ToolCalled(name: string, input: Json)
    | ToolAnswered(name: string, preview: string, isError: bool)
    | Said(text: string)
    | Truncated
    | Done
    | Error(message: string)

  // The adversary: the reply to call i on given messages, the outcome of tool block b in turn i,
  // and the names of the registered tools.
  datatype Environment = Environment(
    llm: (nat, seq<Message>) -> Reply,
    tool: (nat, nat) -> Result<string, string>,
    known: set<string>)

  predicate AsksTools(r: Reply) { r.Response? && r.toolUse }

  function Preview(output: string): string {
    if |output| <= 400 then output else output[..400]
  }

  // -- What a turn contributes ---------------------------------------------------------------

  function Outcome(env: Environment, i: nat, b: nat, name: string): (string, bool) {
    if name !in env.known then ("unknown tool: `" + name + "`", true)
    else
      match env.tool(i, b)
      case Ok(s) => (s, false)
      case Err(e) => ("tool execution failed: " + e, true)
  }

  function TurnTexts(content: seq<Content>): seq<Event> {
    if content == [] then []
    else
      var last := content[|content| - 1];
      TurnTexts(content[..|content| - 1]) + (if last.Text? && last.text != "" then [Said(last.text)] else [])
  }

  function TurnTools(env: Environment, i: nat, content: seq<Content>): seq<Event> {
    if content == [] then []
    else
      var b := |content| - 1;
      TurnTools(env, i, content[..b]) + BlockEvents(env, i, b, content[b])
  }

  function BlockEvents(env: Environment, i: nat, b: nat, block: Content): seq<Event> {
    if block.ToolUse? then
      var (output, isError) := Outcome(env, i, b, block.name);
      [ToolCalled(block.name, block.input), ToolAnswered(block.name, Preview(output), isError)]
    else []
  }

  function TurnResults(env: Environment, i: nat, content: seq<Content>): seq<Content> {
    if content == [] then []
    else
      var b := |content| - 1;
      TurnResults(env, i, content[..b]) + BlockResult(env, i, b, content[b])
  }

  function BlockResult(env: Environment, i: nat, b: nat, block: Content): seq<Content> {
    if block.ToolUse? then
      var (output, isError) := Outcome(env, i, b, block.name);
      [ToolResult(block.id, output, isError)]
    else []
  }

  lemma NoTools(env: Environment, i: nat)
    ensures TurnTools(env, i, []) == [] && TurnResults(env, i, []) == []
  {}

  lemma OneMoreBlock(env: Environment, i: nat, content: seq<Content>, b: nat)
    requires b < |content|
    ensures TurnTools(env, i, content[..b + 1]) ==
      TurnTools(env, i, content[..b]) + BlockEvents(env, i, b, content[b])
    ensures TurnResults(env, i, content[..b + 1]) ==
      TurnResults(env, i, content[..b]) + BlockResult(env, i, b, content[b])
  {
    hide BlockEvents, BlockResult;
    assert content[..b + 1][..b] == content[..b];
  }

  function TurnEvents(env: Environment, i: nat, r: Reply): seq<Event> {
    if r.Failure? then []
    else TurnTexts(r.content) + (if r.toolUse then TurnTools(env, i, r.content) + LastTurn(i) else [])
  }

  function LastTurn(i: nat): seq<Event> {
    if i == MAX_TOOL_ITERATIONS - 1 then [Truncated] else []
  }

  function TurnMessages(env: Environment, i: nat, r: Reply): seq<Message> {
    if r.Failure? then []
    else [Message(Assistant, r.content)] + (if r.toolUse then [Message(User, TurnResults(env, i, r.content))] else [])
  }

  // -- Whole sessions --------------------------------------------------------------------------

  function Transcript(env: Environment, replies: seq<Reply>): seq<Event> {
    if replies == [] then []
    else
      var i := |replies| - 1;
      Transcript(env, replies[..i]) + TurnEvents(env, i, replies[i])
  }

  function Dialogue(env: Environment, replies: seq<Reply>): seq<Message> {
    if replies == [] then []
    else
      var i := |replies| - 1;
      Dialogue(env, replies[..i]) + TurnMessages(env, i, replies[i])
  }

  // The model was asked with exactly the dialogue so far, and asked again only after tool use.
  ghost predicate Asked(env: Environment, start: seq<Message>, replies: seq<Reply>) {
    && |replies| <= MAX_TOOL_ITERATIONS
    && (forall i: nat | i < |replies| :: replies[i] == env.llm(i, start + Dialogue(env, replies[..i])))
    && (forall i | 0 <= i < |replies| - 1 :: AsksTools(replies[i]))
  }

  ghost predicate AllAskTools(replies: seq<Reply>) {
    forall i | 0 <= i < |replies| :: AsksTools(replies[i])
  }

  lemma NothingAsked(env: Environment, start: seq<Message>)
    ensures Asked(env, start, []) && Transcript(env, []) == [] && Dialogue(env, []) == []
  {}

  lemma AskedOnceMore(env: Environment, start: seq<Message>, replies: seq<Reply>, reply: Reply)
    requires Asked(env, start, replies) && AllAskTools(replies) && |replies| < MAX_TOOL_ITERATIONS
    requires reply == env.llm(|replies|, start + Dialogue(env, replies))
    ensures Asked(env, start, replies + [reply])
    ensures AsksTools(reply) ==> AllAskTools(replies + [reply])
    ensures Transcript(env, replies + [reply]) == Transcript(env, replies) + TurnEvents(env, |replies|, reply)
    ensures Dialogue(env, replies + [reply]) == Dialogue(env, replies) + TurnMessages(env, |replies|, reply)
    ensures reply.Failure? ==> TurnEvents(env, |replies|, reply) == [] && TurnMessages(env, |replies|, reply) == []
  {
    hide Transcript, Dialogue, TurnEvents, TurnMessages;
    OneMoreTurn(env, replies, reply);
    var more := replies + [reply];
    forall i: nat | i < |more| ensures more[i] == env.llm(i, start + Dialogue(env, more[..i])) {
      assert more[..i] == replies[..i];
      if i == |replies| {
        assert replies[..i] == replies;
      }
    }
  }

  lemma OneMoreTurn(env: Environment, replies: seq<Reply>, reply: Reply)
    ensures Transcript(env, replies + [reply]) == Transcript(env, replies) + TurnEvents(env, |replies|, reply)
    ensures Dialogue(env, replies + [reply]) == Dialogue(env, replies) + TurnMessages(env, |replies|, reply)
    ensures reply.Failure? ==> TurnEvents(env, |replies|, reply) == [] && TurnMessages(env, |replies|, reply) == []
  {
    assert (replies + [reply])[..|replies|] == replies;
  }

  // A finished session: a tenth tool request or a reply that asks for none.
  ghost predicate Session(env: Environment, start: seq<Message>, replies: seq<Reply>) {
    && Asked(env, start, replies)
    && replies != []
    && (|replies| < MAX_TOOL_ITERATIONS ==> !AsksTools(replies[|replies| - 1]))
  }

  function Closing(r: Reply): seq<Event> {
    (if r.Failure? then [Error(r.message)] else []) + [Done]
  }

  class AgentRun {
    const env: Environment
    var messages: seq<Message>
    var events: seq<Event>

    constructor (env: Environment, history: seq<Message>)
      ensures this.env == env && messages == history && events == []
    {
      this.env := env;
      messages := history;
      events := [];
    }

    // `run`
    method Run(userMessage: string) returns (ghost replies: seq<Reply>)
      requires events == []
      modifies this
      ensures
        var start := old(messages) + [Message(User, [Text(userMessage)])];
        && Session(env, start, replies)
        && messages == start + Dialogue(env, replies)
        && events == Transcript(env, replies) + Closing(replies[|replies| - 1])
    {
      var outcome;
      outcome, replies := RunInner(userMessage);
      if outcome.Some? {
        events := events + [Error(outcome.value)];
      }
      events := events + [Done];
    }

    // `run_inner`
    method RunInner(userMessage: string) returns (failure: Option<string>, ghost replies: seq<Reply>)
      requires events == []
      modifies this
      ensures
        var start := old(messages) + [Message(User, [Text(userMessage)])];
        && Session(env, start, replies)
        && messages == start + Dialogue(env, replies)
        && events == Transcript(env, replies)
      ensures
        var last := replies[|replies| - 1];
        failure == if last.Failure? then Some(last.message) else None
    {
      hide Transcript, Dialogue, TurnEvents, TurnMessages, Asked;
      NothingAsked(env, messages + [Message(User, [Text(userMessage)])]);
      messages := messages + [Message(User, [Text(userMessage)])];
      ghost var start := messages;
      replies := [];
      for iter := 0 to MAX_TOOL_ITERATIONS
        invariant |replies| == iter && Asked(env, start, replies) && AllAskTools(replies)
        invariant messages == start + Dialogue(env, replies)
        invariant events == Transcript(env, replies)
      {
        var reply := env.llm(iter, messages);
        AskedOnceMore(env, start, replies, reply);
        replies := replies + [reply];
        if reply.Failure? {
          return Some(reply.message), replies;
        }
        var more := TakeTurn(iter, reply);
        if !more {
          return None, replies;
        }
      }
      return None, replies;
    }

    // The body of the loop after a successful call.
    method TakeTurn(iter: nat, reply: Reply) returns (more: bool)
      requires reply.Response?
      modifies this
      ensures more == reply.toolUse
      ensures messages == old(messages) + TurnMessages(env, iter, reply)
      ensures events == old(events) + TurnEvents(env, iter, reply)
    {
      SendTexts(reply.content);
      messages := messages + [Message(Assistant, reply.content)];
      if !reply.toolUse {
        return false;
      }
      var results := CallTools(iter, reply.content);
      messages := messages + [Message(User, results)];
      if iter == MAX_TOOL_ITERATIONS - 1 {
        events := events + [Truncated];
      }
      return true;
    }

    // The first loop over a reply: forward its nonempty texts.
    method SendTexts(content: seq<Content>)
      modifies this`events
      ensures events == old(events) + TurnTexts(content)
    {
      for b := 0 to |content|
        invariant events == old(events) + TurnTexts(content[..b])
      {
        var block := content[b];
        assert content[..b + 1][..b] == content[..b];
        if block.Text? && block.text != "" {
          events := events + [Said(block.text)];
        }
      }
      assert content[..|content|] == content;
    }

    // The second loop: run every tool the reply asks for.
    method CallTools(iter: nat, content: seq<Content>) returns (results: seq<Content>)
      modifies this`events
      ensures events == old(events) + TurnTools(env, iter, content)
      ensures results == TurnResults(env, iter, content)
    {
      hide Preview, TurnTools, TurnResults;
      results := [];
      NoTools(env, iter);
      for b := 0 to |content|
        invariant events == old(events) + TurnTools(env, iter, content[..b])
        invariant results == TurnResults(env, iter, content[..b])
      {
        var block := content[b];
        OneMoreBlock(env, iter, content, b);
        if !block.ToolUse? {
          continue;
        }
        events := events + [ToolCalled(block.name, block.input)];
        var output, isError;
        if block.name in env.known {
          match env.tool(iter, b) {
            case Ok(s) => output, isError := s, false;
            case Err(e) => output, isError := "tool execution failed: " + e, true;
          }
        } else {
          output, isError := "unknown tool: `" + block.name + "`", true;
        }
        events := events + [ToolAnswered(block.name, Preview(output), isError)];
        results := results + [ToolResult(block.id, output, isError)];
      }
      assert content[..|content|] == content;
    }
  }

  // -- Over every model and tool behaviour ------------------------------------------------------

  // Calls and answers come in adjacent pairs of the same tool.
  ghost predicate CallsAnswered(events: seq<Event>) {
    && (forall j | 0 <= j < |events| && events[j].ToolCalled? ::
          j + 1 < |events| && events[j + 1].ToolAnswered? && events[j + 1].name == events[j].name)
    && (forall j | 0 <= j < |events| && events[j].ToolAnswered? ::
          j > 0 && events[j - 1].ToolCalled? && events[j - 1].name == events[j].name)
  }

  lemma CallsAnsweredAppend(a: seq<Event>, b: seq<Event>)
    requires CallsAnswered(a) && CallsAnswered(b)
    ensures CallsAnswered(a + b)
  {
    var c := a + b;
    forall j | 0 <= j < |c| && c[j].ToolCalled?
      ensures j + 1 < |c| && c[j + 1].ToolAnswered? && c[j + 1].name == c[j].name
    {
      if j >= |a| {
        assert c[j] == b[j - |a|] && b[j - |a|].ToolCalled?;
        assert c[j + 1] == b[j + 1 - |a|];
      }
    }
    forall j | 0 <= j < |c| && c[j].ToolAnswered?
      ensures j > 0 && c[j - 1].ToolCalled? && c[j - 1].name == c[j].name
    {
      if j >= |a| {
        assert c[j] == b[j - |a|] && b[j - |a|].ToolAnswered?;
        assert c[j - 1] == b[j - 1 - |a|];
      }
    }
  }

  lemma {:induction false} TextsAreTexts(content: seq<Content>)
    ensures forall j | 0 <= j < |TurnTexts(content)| :: TurnTexts(content)[j].Said?
    ensures CallsAnswered(TurnTexts(content))
  {
    if content != [] {
      TextsAreTexts(content[..|content| - 1]);
    }
  }

  lemma {:induction false} ToolsAnswered(env: Environment, i: nat, content: seq<Content>)
    ensures CallsAnswered(TurnTools(env, i, content))
    ensures forall e | e in TurnTools(env, i, content) :: e.ToolCalled? || e.ToolAnswered?
  {
    if content != [] {
      var b := |content| - 1;
      ToolsAnswered(env, i, content[..b]);
      CallsAnsweredAppend(TurnTools(env, i, content[..b]), BlockEvents(env, i, b, content[b]));
    }
  }

  lemma TurnAnswered(env: Environment, i: nat, r: Reply)
    ensures CallsAnswered(TurnEvents(env, i, r))
    ensures Done !in TurnEvents(env, i, r)
    ensures Truncated in TurnEvents(env, i, r) <==> AsksTools(r) && i == MAX_TOOL_ITERATIONS - 1
  {
    if r.Response? {
      TextsAreTexts(r.content);
      ToolsAnswered(env, i, r.content);
      CallsAnsweredAppend(TurnTools(env, i, r.content), LastTurn(i));
      if r.toolUse {
        CallsAnsweredAppend(TurnTexts(r.content), TurnTools(env, i, r.content) + LastTurn(i));
      }
      if AsksTools(r) && i == MAX_TOOL_ITERATIONS - 1 {
        assert LastTurn(i)[0] == Truncated && Truncated in LastTurn(i);
      }
    }
  }

  lemma {:induction false} TranscriptAnswered(env: Environment, replies: seq<Reply>)
    ensures CallsAnswered(Transcript(env, replies))
    ensures Done !in Transcript(env, replies)
    ensures |replies| <= MAX_TOOL_ITERATIONS ==>
      (Truncated in Transcript(env, replies) <==> |replies| == MAX_TOOL_ITERATIONS && AsksTools(replies[|replies| - 1]))
  {
    if replies != [] {
      var i := |replies| - 1;
      TranscriptAnswered(env, replies[..i]);
      TurnAnswered(env, i, replies[i]);
      CallsAnsweredAppend(Transcript(env, replies[..i]), TurnEvents(env, i, replies[i]));
    }
  }

  // What the browser sees of any finished session.
  lemma EventsAreWellFormed(env: Environment, start: seq<Message>, replies: seq<Reply>)
    requires Session(env, start, replies)
    ensures
      var events := Transcript(env, replies) + Closing(replies[|replies| - 1]);
      && CallsAnswered(events)
      && (Truncated in events <==> |replies| == MAX_TOOL_ITERATIONS && AllAskTools(replies))
      && events[|events| - 1] == Done
      && Done !in events[..|events| - 1]
  {
    hide Transcript, Dialogue;
    var last := replies[|replies| - 1];
    TranscriptAnswered(env, replies);
    ClosingEnds(Transcript(env, replies), last);
  }

  lemma ClosingEnds(events: seq<Event>, last: Reply)
    requires CallsAnswered(events) && Done !in events
    ensures
      var all := events + Closing(last);
      && CallsAnswered(all)
      && (Truncated in all <==> Truncated in events)
      && all[|all| - 1] == Done
      && Done !in all[..|all| - 1]
  {
    CallsAnsweredAppend(events, Closing(last));
    var all := events + Closing(last);
    assert all[..|all| - 1] == events + (if last.Failure? then [Error(last.message)] else []);
  }

  // -- The dialogue --------------------------------------------------------------------------------

  function UseIds(content: seq<Content>): seq<string> {
    if content == [] then []
    else
      var last := content[|content| - 1];
      UseIds(content[..|content| - 1]) + (if last.ToolUse? then [last.id] else [])
  }

  function ResultIds(content: seq<Content>): seq<string> {
    if content == [] then []
    else
      var last := content[|content| - 1];
      ResultIds(content[..|content| - 1]) + (if last.ToolResult? then [last.toolUseId] else [])
  }

  // The results answer the uses of the turn, in order, and are all there is.
  lemma {:induction false} ResultsAnswerUses(env: Environment, i: nat, content: seq<Content>)
    ensures ResultIds(TurnResults(env, i, content)) == UseIds(content)
    ensures |TurnResults(env, i, content)| == |UseIds(content)|
  {
    if content != [] {
      var b := |content| - 1;
      ResultsAnswerUses(env, i, content[..b]);
      var before, more := TurnResults(env, i, content[..b]), BlockResult(env, i, b, content[b]);
      if more != [] {
        assert (before + more)[..|before|] == before;
      } else {
        assert before + more == before;
      }
    }
  }

  // A reply, and after a tool request the one user message that answers it.
  ghost predicate TurnAt(dialogue: seq<Message>, i: nat, r: Reply) {
    && 2 * i < |dialogue|
    && r.Response? && dialogue[2 * i] == Message(Assistant, r.content)
    && (if r.toolUse
        then 2 * i + 1 < |dialogue| && dialogue[2 * i + 1].role == User &&
          ResultIds(dialogue[2 * i + 1].content) == UseIds(r.content)
        else |dialogue| == 2 * i + 1)
  }

  lemma {:induction false} DialogueAlternates(env: Environment, replies: seq<Reply>)
    requires forall i | 0 <= i < |replies| - 1 :: AsksTools(replies[i])
    ensures forall i: nat | i < |replies| && replies[i].Response? :: TurnAt(Dialogue(env, replies), i, replies[i])
    ensures AllAskTools(replies) ==> |Dialogue(env, replies)| == 2 * |replies|
  {
    if replies != [] {
      var n := |replies| - 1;
      DialogueAlternates(env, replies[..n]);
      assert AllAskTools(replies[..n]);
      forall i: nat | i < |replies| && replies[i].Response? ensures TurnAt(Dialogue(env, replies), i, replies[i]) {
        if i < n {
          assert replies[..n][i] == replies[i];
          TurnStays(Dialogue(env, replies[..n]), TurnMessages(env, n, replies[n]), i, replies[i]);
        } else {
          TurnAppears(env, Dialogue(env, replies[..n]), n, replies[n]);
        }
      }
    }
  }

  lemma TurnStays(dialogue: seq<Message>, more: seq<Message>, i: nat, r: Reply)
    requires TurnAt(dialogue, i, r) && r.toolUse
    ensures TurnAt(dialogue + more, i, r)
  {}

  lemma TurnAppears(env: Environment, dialogue: seq<Message>, i: nat, r: Reply)
    requires |dialogue| == 2 * i && r.Response?
    ensures TurnAt(dialogue + TurnMessages(env, i, r), i, r)
  {
    ResultsAnswerUses(env, i, r.content);
  }

  // -- What a turn holds, block by block --------------------------------------------------------

  // The positions of the tool uses, and of the nonempty texts, of a reply.
  ghost function UsesAt(content: seq<Content>): (at: seq<nat>)
    ensures forall j | 0 <= j < |at| :: at[j] < |content| && content[at[j]].ToolUse?
    ensures forall j, k | 0 <= j < k < |at| :: at[j] < at[k]
    ensures forall b: nat | b < |content| && content[b].ToolUse? :: b in at
  {
    if content == [] then []
    else
      var b := |content| - 1;
      if content[b].ToolUse? then UsesAt(content[..b]) + [b] else UsesAt(content[..b])
  }

  ghost function TextsAt(content: seq<Content>): (at: seq<nat>)
    ensures forall j | 0 <= j < |at| :: at[j] < |content| && content[at[j]].Text? && content[at[j]].text != ""
    ensures forall j, k | 0 <= j < k < |at| :: at[j] < at[k]
    ensures forall b: nat | b < |content| && content[b].Text? && content[b].text != "" :: b in at
  {
    if content == [] then []
    else
      var b := |content| - 1;
      if content[b].Text? && content[b].text != "" then TextsAt(content[..b]) + [b] else TextsAt(content[..b])
  }

  // What a tool use leads to: an unknown name and a failed execution are errors.
  ghost predicate Answers(env: Environment, i: nat, b: nat, name: string, output: string, isError: bool) {
    if name !in env.known then isError && output == "unknown tool: `" + name + "`"
    else
      match env.tool(i, b)
      case Ok(text) => !isError && output == text
      case Err(error) => isError && output == "tool execution failed: " + error
  }

  // The texts are sent as they are.
  lemma {:induction false} TextsAreSent(content: seq<Content>, j: nat)
    ensures |TurnTexts(content)| == |TextsAt(content)|
    ensures j < |TextsAt(content)| ==> TurnTexts(content)[j] == Said(content[TextsAt(content)[j]].text)
  {
    if content != [] {
      TextsAreSent(content[..|content| - 1], j);
    }
  }

  // Every use is announced with its input and answered with the outcome, cut to 400 characters for
  // the browser and whole for the model.
  lemma {:induction false} UsesAreAnswered(env: Environment, i: nat, content: seq<Content>, j: nat)
    ensures |TurnTools(env, i, content)| == 2 * |UsesAt(content)|
    ensures |TurnResults(env, i, content)| == |UsesAt(content)|
    ensures j < |UsesAt(content)| ==>
      var b := UsesAt(content)[j];
      var call, answer, result :=
        TurnTools(env, i, content)[2 * j], TurnTools(env, i, content)[2 * j + 1], TurnResults(env, i, content)[j];
      && call == ToolCalled(content[b].name, content[b].input)
      && answer.ToolAnswered? && answer.name == content[b].name
      && result.ToolResult? && result.toolUseId == content[b].id
      && Answers(env, i, b, content[b].name, result.content, result.isError)
      && answer.isError == result.isError
      && answer.preview <= result.content
      && |answer.preview| == if |result.content| < 400 then |result.content| else 400
  {
    if content != [] {
      var b := |content| - 1;
      UsesAreAnswered(env, i, content[..b], j);
      BlockIsAnswered(env, i, b, content[b]);
    }
  }

  lemma BlockIsAnswered(env: Environment, i: nat, b: nat, block: Content)
    ensures !block.ToolUse? ==> BlockEvents(env, i, b, block) == [] && BlockResult(env, i, b, block) == []
    ensures block.ToolUse? ==>
      && |BlockEvents(env, i, b, block)| == 2 && |BlockResult(env, i, b, block)| == 1
      && var call, answer, result :=
           BlockEvents(env, i, b, block)[0], BlockEvents(env, i, b, block)[1], BlockResult(env, i, b, block)[0];
      && call == ToolCalled(block.name, block.input)
      && answer.ToolAnswered? && answer.name == block.name
      && result.ToolResult? && result.toolUseId == block.id
      && Answers(env, i, b, block.name, result.content, result.isError)
      && answer.isError == result.isError
      && answer.preview <= result.content
      && |answer.preview| == if |result.content| < 400 then |result.content| else 400
  {}

  // A turn sends its texts, then its calls and answers if it asks for tools, then the truncation
  // if it is the tenth to ask.
  lemma TurnIsSent(env: Environment, i: nat, r: Reply)
    requires r.Response?
    ensures
      var texts, tools := |TextsAt(r.content)|, if r.toolUse then 2 * |UsesAt(r.content)| else 0;
      var cut := if r.toolUse && i == 9 then 1 else 0;
      && |TurnEvents(env, i, r)| == texts + tools + cut
      && TurnEvents(env, i, r)[..texts] == TurnTexts(r.content)
      && (r.toolUse ==> TurnEvents(env, i, r)[texts..texts + tools] == TurnTools(env, i, r.content))
      && (cut == 1 ==> TurnEvents(env, i, r)[texts + tools] == Truncated)
  {
    hide TurnTexts, TurnTools, TextsAt, UsesAt, TurnResults, BlockEvents;
    TextsAreSent(r.content, 0);
    UsesAreAnswered(env, i, r.content, 0);
  }

  // The failure of the last call, and nothing else, is sent as an error.
  lemma FailuresAreSent(env: Environment, start: seq<Message>, replies: seq<Reply>, message: string)
    requires Session(env, start, replies)
    ensures
      var last := replies[|replies| - 1];
      Error(message) in Transcript(env, replies) + Closing(last) <==> last == Failure(message)
  {
    NoErrorsInTranscript(env, replies, message);
  }

  lemma {:induction false} NoErrorsInTranscript(env: Environment, replies: seq<Reply>, message: string)
    ensures Error(message) !in Transcript(env, replies)
  {
    if replies != [] {
      var i := |replies| - 1;
      hide TurnEvents;
      NoErrorsInTranscript(env, replies[..i], message);
      NoErrorsInTurn(env, i, replies[i], message);
    }
  }

  lemma NoErrorsInTurn(env: Environment, i: nat, r: Reply, message: string)
    ensures Error(message) !in TurnEvents(env, i, r)
  {
    hide TurnTexts, TurnTools;
    if r.Response? {
      TextsAreTexts(r.content);
      ToolsAnswered(env, i, r.content);
    }
  }
}
