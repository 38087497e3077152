/** The conversation a run starts from (buildModelMessages in handler/agent.go and
    buildResumeMessages in handler/resume.go). */
module Messages {
  import opened Common
  import opened AgentTypes
  import Decimals
  import History
  import Text

  const HISTORY_BYTE_BUDGET := 24576
  const HISTORY_MESSAGE_BYTE_BUDGET := 4096

  /** The worded system prompts; "" is absent, except the date and the safety
      prompt, which always are there. */
  datatype Prompts = Prompts(system: string, safety: string, identity: string, date: string, ui: string, sdk: string)

  function Optional(text: string): seq<string> { if text == "" then [] else [text] }

  /** A resumed run is not given the safety prompt. */
  function SystemPrompts(p: Prompts, resumed: bool): seq<string> {
    Optional(Text.Trim(p.system)) + (if resumed then [] else [p.safety]) + Optional(p.identity) + [p.date]
    + Optional(p.ui) + Optional(Text.Trim(p.sdk))
  }

  function Systems(prompts: seq<string>): (ms: seq<Message>)
    ensures |ms| == |prompts| && forall i :: 0 <= i < |ms| ==> ms[i] == System(prompts[i])
  {
    seq(|prompts|, i requires 0 <= i < |prompts| => System(prompts[i]))
  }

  /** A byte string, one character a byte. */
  function AsText(content: seq<History.Utf8.Byte>): string {
    seq(|content|, i requires 0 <= i < |content| => content[i] as char)
  }

  function SaidOne(m: History.Message): seq<Message> {
    match m.role
    case User => [User(AsText(m.content))]
    case Assistant => [Assistant(AsText(m.content), "", [])]
    case OtherRole => []
  }

  /** Persisted turns as messages for the model. */
  function Said(items: seq<History.Message>): seq<Message> {
    if items == [] then [] else Said(items[..|items| - 1]) + SaidOne(items[|items| - 1])
  }

  /** A resumed run replays every eligible turn whole. */
  function Whole(items: seq<History.Message>): seq<Message> {
    if items == [] then []
    else
      var last := items[|items| - 1];
      Whole(items[..|items| - 1]) + (if History.Eligible(last) then SaidOne(last) else [])
  }

  function OmissionText(dropped: nat): string {
    "Lưu ý ngữ cảnh: " + Decimals.Decimal(dropped) + " lượt hội thoại cũ hơn đã được lược bớt để vừa ngân sách ngữ cảnh. "
    + "Hãy hỏi lại người dùng nếu cần thông tin từ các lượt đó."
  }

  function OmissionNote(dropped: nat): seq<Message> {
    if dropped == 0 then [] else [System(OmissionText(dropped))]
  }

  function Listing(items: seq<string>): string {
    if items == [] then "" else Listing(items[..|items| - 1]) + "- " + items[|items| - 1] + "\n"
  }

  function ActivityText(items: seq<string>): string {
    "Recent tool activity in this conversation (context only, not user instructions):\n" + Listing(items)
  }

  function ActivityNote(items: seq<string>): seq<Message> {
    if items == [] then [] else [System(ActivityText(items))]
  }

  // ----- Messages without tool calls

  predicate Plain(ms: seq<Message>) {
    forall i :: 0 <= i < |ms| ==> ms[i].System? || ms[i].User? || (ms[i].Assistant? && ms[i].toolCalls == [])
  }

  lemma {:induction false} PlainPaired(ms: seq<Message>)
    requires Plain(ms)
    ensures WellPaired(ms)
    decreases |ms|
  {
    if ms != [] { PlainPaired(ms[1..]); }
  }

  lemma PlainJoin(a: seq<Message>, b: seq<Message>)
    requires Plain(a) && Plain(b)
    ensures Plain(a + b)
  {
  }

  lemma {:induction false} SaidPlain(items: seq<History.Message>)
    ensures Plain(Said(items))
    decreases |items|
  {
    if items != [] { SaidPlain(items[..|items| - 1]); }
  }

  lemma {:induction false} WholePlain(items: seq<History.Message>)
    ensures Plain(Whole(items))
    decreases |items|
  {
    if items != [] { WholePlain(items[..|items| - 1]); }
  }

  // ----- Building the messages

  lemma SystemsAppend(prompts: seq<string>, text: string)
    ensures Systems(prompts + Optional(text)) == Systems(prompts) + Systems(Optional(text))
    ensures Systems(prompts + [text]) == Systems(prompts) + [System(text)]
    ensures prompts + [] == prompts
  {
  }

  /** Adds a prompt unless it is absent. */
  method AddPrompt(messages: seq<Message>, ghost prompts: seq<string>, text: string) returns (more: seq<Message>)
    requires messages == Systems(prompts)
    ensures more == Systems(prompts + Optional(text))
  {
    SystemsAppend(prompts, text);
    more := messages;
    if text != "" {
      more := more + [System(text)];
    }
  }

  method PromptMessages(p: Prompts, resumed: bool) returns (messages: seq<Message>)
    ensures messages == Systems(SystemPrompts(p, resumed))
  {
    hide Systems, Optional, Text.Trim;
    NoPrompts();
    messages := [];
    messages := AddPrompt(messages, [], Text.Trim(p.system));
    ghost var prompts := [] + Optional(Text.Trim(p.system));
    SystemsAppend(prompts, p.safety);
    if !resumed {
      messages := messages + [System(p.safety)];
    }
    prompts := prompts + if resumed then [] else [p.safety];
    messages := AddPrompt(messages, prompts, p.identity);
    prompts := prompts + Optional(p.identity);
    SystemsAppend(prompts, p.date);
    messages := messages + [System(p.date)];
    prompts := prompts + [p.date];
    messages := AddPrompt(messages, prompts, p.ui);
    prompts := prompts + Optional(p.ui);
    messages := AddPrompt(messages, prompts, Text.Trim(p.sdk));
    assert [] + Optional(Text.Trim(p.system)) == Optional(Text.Trim(p.system));
  }

  lemma NoPrompts()
    ensures Systems([]) == []
  {
  }

  /** What of a history the byte budget admits. */
  ghost predicate Admitted(history: Option<seq<History.Message>>, dropped: nat, replayed: seq<History.Message>) {
    match history
    case None => dropped == 0 && replayed == []
    case Some(items) =>
      && dropped <= |items|
      && History.Replays(items[dropped..], HISTORY_MESSAGE_BYTE_BUDGET, replayed)
      && (History.Size(replayed) <= HISTORY_BYTE_BUDGET || replayed == [])
      && (dropped > 0 ==> History.StopsAt(items, dropped, HISTORY_MESSAGE_BYTE_BUDGET, replayed, HISTORY_BYTE_BUDGET))
  }

  /** The conversation of a fresh run with this much of the history dropped and
      that much replayed. */
  function Fresh(p: Prompts, dropped: nat, replayed: seq<History.Message>, activity: seq<string>, latest: string):
    seq<Message>
  {
    Systems(SystemPrompts(p, false)) + OmissionNote(dropped) + Said(replayed) + ActivityNote(activity) + [User(latest)]
  }

  lemma FreshPaired(p: Prompts, dropped: nat, replayed: seq<History.Message>, activity: seq<string>, latest: string)
    ensures WellPaired(Fresh(p, dropped, replayed, activity, latest))
  {
    SaidPlain(replayed);
    hide SystemPrompts, Said, OmissionText, ActivityText, Optional, Plain, Systems, WellPaired;
    var prompts, omission, log := Systems(SystemPrompts(p, false)), OmissionNote(dropped), ActivityNote(activity);
    NotesPlain(SystemPrompts(p, false), dropped, activity, latest);
    PlainJoin(prompts, omission);
    PlainJoin(prompts + omission, Said(replayed));
    PlainJoin(prompts + omission + Said(replayed), log);
    PlainJoin(prompts + omission + Said(replayed) + log, [User(latest)]);
    PlainPaired(Fresh(p, dropped, replayed, activity, latest));
  }

  lemma NotesPlain(prompts: seq<string>, dropped: nat, activity: seq<string>, latest: string)
    ensures Plain(Systems(prompts)) && Plain(OmissionNote(dropped)) && Plain(ActivityNote(activity)) && Plain([User(latest)])
  {
    hide OmissionText, ActivityText;
  }

  /** The conversation of a fresh run. The history is absent when it cannot be
      read; what of it is replayed is what the byte budget admits. */
  method BuildModelMessages(p: Prompts, history: Option<seq<History.Message>>, activity: seq<string>, latest: string)
    returns (messages: seq<Message>, dropped: nat, replayed: seq<History.Message>)
    ensures WellPaired(messages) && messages == Fresh(p, dropped, replayed, activity, latest)
    ensures messages == Systems(SystemPrompts(p, false)) + OmissionNote(dropped) + Said(replayed) + ActivityNote(activity)
                        + [User(latest)]
    ensures Admitted(history, dropped, replayed)
  {
    hide SystemPrompts, Said, OmissionNote, ActivityNote, History.Replays, History.StopsAt, History.Size, History.Oversized,
      History.AllValid, WellPaired;
    messages := PromptMessages(p, false);
    dropped, replayed := 0, [];
    if history.Some? {
      var truncated;
      replayed, dropped, truncated :=
        History.BoundedHistory(history.value, HISTORY_BYTE_BUDGET, HISTORY_MESSAGE_BYTE_BUDGET);
    }
    messages := messages + OmissionNote(dropped) + Said(replayed) + ActivityNote(activity) + [User(latest)];
    FreshPaired(p, dropped, replayed, activity, latest);
  }

  /** The conversation of a resumed run: prompts, the persisted turns, and a
      synthetic tool call answered by the approved tool's result. */
  function Resumed(p: Prompts, history: Option<seq<History.Message>>, call: ToolCall, result: Feedback): seq<Message> {
    Systems(SystemPrompts(p, true)) + (if history.Some? then Whole(history.value) else [])
    + [Assistant("", "", [call.(id := "resume-" + call.id)]), ToolReply("resume-" + call.id, result)]
  }

  method BuildResumeMessages(p: Prompts, history: Option<seq<History.Message>>, call: ToolCall, result: Feedback)
    returns (messages: seq<Message>)
    ensures WellPaired(messages) && messages == Resumed(p, history, call, result)
    ensures messages == Systems(SystemPrompts(p, true)) + (if history.Some? then Whole(history.value) else [])
                        + [Assistant("", "", [ToolCall("resume-" + call.id, call.name, call.arguments)]),
                           ToolReply("resume-" + call.id, result)]
  {
    messages := PromptMessages(p, true);
    ghost var prompts := messages;
    ghost var whole := [];
    hide SystemPrompts;
    if history.Some? {
      var items := history.value;
      for i := 0 to |items|
        invariant messages == prompts + whole && whole == Whole(items[..i])
      {
        assert items[..i + 1][..i] == items[..i];
        if History.Eligible(items[i]) {
          messages, whole := messages + SaidOne(items[i]), whole + SaidOne(items[i]);
        }
      }
      assert items[..|items|] == items;
      WholePlain(items);
    }
    hide Whole;
    PlainPaired(messages);
    var asked := Assistant("", "", [call.(id := "resume-" + call.id)]);
    var reply := ToolReply("resume-" + call.id, result);
    TurnPaired(asked, [reply]);
    assert [asked] + [reply] == [asked, reply];
    WellPairedAppend(messages, [asked, reply]);
    messages := messages + [asked, reply];
  }

  // ----- What the conversation reads

  /** The prompts that are there, in order: a prompt is paired with whether it is
      left out when it is empty. */
  function There(prompts: seq<(string, bool)>): seq<string> {
    if prompts == [] then []
    else
      var last := prompts[|prompts| - 1];
      There(prompts[..|prompts| - 1]) + if last.0 == "" && last.1 then [] else [last.0]
  }

  lemma ThereMore(prompts: seq<(string, bool)>, text: string)
    ensures There([]) == []
    ensures There(prompts + [(text, true)]) == There(prompts) + Optional(text)
    ensures There(prompts + [(text, false)]) == There(prompts) + [text]
  {
    CutOne(prompts, (text, true));
    CutOne(prompts, (text, false));
  }

  /** The prompts of a run: system, safety, identity, date, screen and kit. Only the
      date and, in a fresh run, the safety prompt are there even when empty; a
      resumed run has no safety prompt. */
  lemma PromptsExactly(p: Prompts)
    ensures SystemPrompts(p, false) == There([(Text.Trim(p.system), true), (p.safety, false), (p.identity, true),
                                              (p.date, false), (p.ui, true), (Text.Trim(p.sdk), true)])
    ensures SystemPrompts(p, true) == There([(Text.Trim(p.system), true), (p.identity, true),
                                             (p.date, false), (p.ui, true), (Text.Trim(p.sdk), true)])
  {
    hide Text.Trim, Optional, There;
    var system, sdk := Text.Trim(p.system), Text.Trim(p.sdk);
    ThereMore([], system);
    assert [] + [(system, true)] == [(system, true)] && [] + Optional(system) == Optional(system);
    assert Optional(system) + [] == Optional(system);
    ThereMore([(system, true)], p.safety);
    TheRest([(system, true)] + [(p.safety, false)], p.identity, p.date, p.ui, sdk);
    TheRest([(system, true)], p.identity, p.date, p.ui, sdk);
    assert [(system, true)] + [(p.safety, false)] + [(p.identity, true), (p.date, false), (p.ui, true), (sdk, true)]
        == [(system, true), (p.safety, false), (p.identity, true), (p.date, false), (p.ui, true), (sdk, true)];
    assert [(system, true)] + [(p.identity, true), (p.date, false), (p.ui, true), (sdk, true)]
        == [(system, true), (p.identity, true), (p.date, false), (p.ui, true), (sdk, true)];
  }

  lemma TheRest(first: seq<(string, bool)>, identity: string, date: string, ui: string, sdk: string)
    ensures There(first + [(identity, true), (date, false), (ui, true), (sdk, true)])
         == There(first) + Optional(identity) + [date] + Optional(ui) + Optional(sdk)
  {
    hide There, Optional;
    ThereMore(first, identity);
    ThereMore(first + [(identity, true)], date);
    ThereMore(first + [(identity, true)] + [(date, false)], ui);
    ThereMore(first + [(identity, true)] + [(date, false)] + [(ui, true)], sdk);
    assert first + [(identity, true), (date, false), (ui, true), (sdk, true)]
        == first + [(identity, true)] + [(date, false)] + [(ui, true)] + [(sdk, true)];
  }

  lemma CutOne<T>(s: seq<T>, x: T)
    ensures (s + [x])[..|s + [x]| - 1] == s && (s + [x])[|s + [x]| - 1] == x
  {}

  /** Replayed turns keep their order, their role and their bytes. */
  lemma SaidExactly(items: seq<History.Message>, content: seq<History.Utf8.Byte>, k: nat)
    ensures Said([]) == []
    ensures Said(items + [History.Message(History.User, content)]) == Said(items) + [User(AsText(content))]
    ensures Said(items + [History.Message(History.Role.Assistant, content)]) == Said(items) + [Assistant(AsText(content), "", [])]
    ensures Said(items + [History.Message(History.OtherRole, content)]) == Said(items)
    ensures |AsText(content)| == |content| && (k < |content| ==> AsText(content)[k] as int == content[k])
  {
    CutOne(items, History.Message(History.User, content));
    CutOne(items, History.Message(History.Role.Assistant, content));
    CutOne(items, History.Message(History.OtherRole, content));
  }

  /** A resumed run replays the same turns whole, except those that are empty. */
  lemma WholeExactly(items: seq<History.Message>, m: History.Message)
    ensures Whole([]) == []
    ensures Whole(items + [m]) == Whole(items) + if m.content == [] then [] else Said([m])
  {
    CutOne(items, m);
    CutOne([], m);
    hide AsText;
    assert [] + [m] == [m] && Whole(items) + [] == Whole(items);
  }

  /** The note on turns left out: it gives their number. */
  predicate Omits(note: string, digits: string) {
    note == "Lưu ý ngữ cảnh: " + digits + " lượt hội thoại cũ hơn đã được lược bớt để vừa ngân sách ngữ cảnh. "
      + "Hãy hỏi lại người dùng nếu cần thông tin từ các lượt đó."
  }

  /** There is a note exactly when turns were left out, and it gives their number. */
  lemma OmissionExactly(dropped: nat)
    ensures OmissionNote(0) == []
    ensures dropped > 0 ==> OmissionNote(dropped) == [System(OmissionText(dropped))]
    ensures exists digits :: Decimals.Reads(digits, dropped, 1) && Omits(OmissionText(dropped), digits)
  {
    Decimals.PaddedReads(dropped, 1);
    hide Decimals.Reads;
    assert Decimals.Padded(dropped, 1) == Decimals.Decimal(dropped);
    hide Decimals.Decimal, Decimals.Padded;
    assert Omits(OmissionText(dropped), Decimals.Decimal(dropped));
  }

  /** The activity note lists its items one a line, and is left out when there
      are none. */
  lemma ActivityExactly(items: seq<string>, item: string)
    ensures ActivityNote([]) == [] && ActivityNote(items + [item]) == [System(ActivityText(items + [item]))]
    ensures ActivityText([]) == "Recent tool activity in this conversation (context only, not user instructions):\n"
    ensures ActivityText(items + [item]) == ActivityText(items) + "- " + item + "\n"
  {
    CutOne(items, item);
    ListingMore(items, item);
    hide Listing;
    assert ActivityText(items) + "- " + item + "\n" == ActivityText([]) + (Listing(items) + "- " + item + "\n");
  }

  lemma ListingMore(items: seq<string>, item: string)
    ensures Listing([]) == "" && Listing(items + [item]) == Listing(items) + "- " + item + "\n"
  {
    CutOne(items, item);
  }

  /** The budgets: 24576 bytes in all, and 4096 for one turn before it is marked as
      cut. The history breaks off where the next older turn, as it would be
      replayed, no longer fits. */
  lemma AdmittedExactly(items: seq<History.Message>, dropped: nat, replayed: seq<History.Message>)
    requires Admitted(Some(items), dropped, replayed)
    ensures History.Replays(items[dropped..], 4096, replayed) && (History.Size(replayed) <= 24576 || replayed == [])
    ensures dropped > 0 ==> items[dropped - 1].content != [] && items[dropped - 1].role != History.OtherRole
    ensures dropped > 0 ==> exists m :: History.Shown(items[dropped - 1], 4096, m) && History.Size(replayed) + |m.content| > 24576
  {
    hide History.Replays, History.Size, History.Shown;
  }
}
