/** The per-user state of the bot as values: every user's conversation
    history and temperature, the handlers that change them, the replies the
    handlers send, and what a sequence of events leaves behind.

    The completion backend is a parameter: each text message comes with the
    outcome the backend gave for its prompt. */
module Registry {
  import opened Callbacks
  import opened Prompt

  /** The chat platform's identifier of a user. */
  type UserId = int

  /** The temperature (in tenths) a user gets on /start when none is stored. */
  const DefaultTemperature: int := 5

  /** The temperature (in tenths) every completion request is made with. */
  const ChatTemperature: int := 5

  /** The completion model every request names, and its output budget. */
  const Engine: string := "text-davinci-003"
  const MaxTokens: int := 1024

  /** The two registries: user to conversation turns (alternately what the
      user said and what the backend answered), and user to temperature in
      tenths. */
  datatype Users = Users(history: map<UserId, seq<string>>, temperature: map<UserId, int>)

  /** What the completion backend did with a prompt: produced a text (maybe
      empty), rejected the request as invalid (the prompt with the answer
      would be too long), or failed in some other way. */
  datatype Completion = Completed(text: string) | InvalidRequest | Failed

  /** A request to the completion backend. */
  datatype Request = Request(engine: string, prompt: string, maxTokens: int, temperature: int)

  /** The fixed texts the bot sends. */
  datatype Notice =
    | Greeting                      // the welcome sent on /start
    | HistoryCleared                // the answer to the reset button
    | ChooseTemperature             // the text above the temperature menu
    | TemperatureSet(tenths: int)   // the answer to a temperature button
    | InvalidOption                 // the answer to an unknown payload
    | Apology                       // the reply to an empty completion
    | AskMoreSpecific               // the reply to a rejected request

  /** What the bot sends back: a short notice answering a button press, a
      chat message with a fixed text, a chat message with the backend's
      text, the temperature menu with its button payloads, or nothing (the
      handler ended in an exception). A fixed text and the backend's text
      go out through the same call; the two constructors only record where
      the words came from. */
  datatype Reply =
    | Answer(notice: Notice)
    | Say(notice: Notice)
    | Text(message: string)
    | TemperatureMenu(prompt: Notice, payloads: seq<string>)
    | NoReply

  /** The state a handler leaves and the reply it sends. */
  datatype Handled = Handled(users: Users, reply: Reply)

  /** An inbound event: the /start command, a text message (with what the
      backend made of its prompt), or a button press with its payload. */
  datatype Event =
    | StartCommand(user: UserId)
    | TextMessage(user: UserId, text: string, completion: Completion)
    | ButtonPress(user: UserId, payload: string)

  /** A user's turns so far; none for a user not in the registry. */
  function HistoryOf(s: Users, u: UserId): seq<string>
  {
    if u in s.history then s.history[u] else []
  }

  /** Whether the backend produced a non-empty text, the one outcome that
      extends the history. */
  predicate Answered(c: Completion)
  {
    c.Completed? && c.text != ""
  }

  /** The acknowledgement of a new temperature. */
  function TemperatureNotice(i: int): (notice: string)
    requires 0 <= i < 10
    ensures notice == "Temperature set to 0." + [Digit(i)] + "."
  {
    "Temperature set to " + TenthsText(i) + "."
  }

  /** The words of each notice, as the bot sends them. */
  function NoticeText(n: Notice): (t: string)
    requires n.TemperatureSet? ==> 0 <= n.tenths < 10
    ensures n.TemperatureSet? ==> t == TemperatureNotice(n.tenths)
  {
    match n
    case Greeting => GreetingText
    case HistoryCleared => HistoryClearedText
    case ChooseTemperature => ChooseTemperatureText
    case TemperatureSet(i) => TemperatureNotice(i)
    case InvalidOption => InvalidOptionText
    case Apology => ApologyText
    case AskMoreSpecific => AskMoreSpecificText
  }

  const GreetingText: string := "Halo, saya Bapak Budi. hhehe. Bantu kamu dalam belajar IoT di Nusabot. Tekan tombol \"Buat Topik Obrolan Baru\" yah setiap kali kamu ingin membuat topik pertanyaan baru biar saya paham kalau obrolannya sudah selesai."
  const HistoryClearedText: string := "Riwayat obrolan kamu sudah dihapus."
  const ChooseTemperatureText: string := "Please select a temperature:"
  const InvalidOptionText: string := "Invalid option."
  const ApologyText: string := "Yah maaf, saya tidak tahu kalau itu. Tempe ada sih. Mau?"
  const AskMoreSpecificText: string := "Jawabannya akan panjang, coba beri saya pertanyaan lain deh yang lebih spesifik."

  /** reset: the user's history becomes empty; nothing else changes. */
  function ResetUser(s: Users, u: UserId): (t: Users)
    ensures t.history.Keys == s.history.Keys + {u}
    ensures t.history[u] == []
    ensures forall v :: v in s.history && v != u ==> t.history[v] == s.history[v]
    ensures t.temperature == s.temperature
  {
    s.(history := s.history[u := []])
  }

  /** start: a user without a history gets an empty one and a user without
      a temperature gets the default; entries already there stay as they
      are, and nobody else changes. */
  function StartUser(s: Users, u: UserId): (t: Users)
    ensures t.history.Keys == s.history.Keys + {u}
    ensures t.temperature.Keys == s.temperature.Keys + {u}
    ensures t.history[u] == HistoryOf(s, u)
    ensures t.temperature[u] == if u in s.temperature then s.temperature[u] else DefaultTemperature
    ensures forall v :: v in s.history && v != u ==> t.history[v] == s.history[v]
    ensures forall v :: v in s.temperature && v != u ==> t.temperature[v] == s.temperature[v]
  {
    var history := if u !in s.history then s.history[u := []] else s.history;
    var temperature := if u !in s.temperature then s.temperature[u := DefaultTemperature] else s.temperature;
    Users(history, temperature)
  }

  /** set_temperature: the user's temperature becomes i tenths; nobody
      else's temperature and no history changes. */
  function SetUserTemperature(s: Users, u: UserId, i: int): (t: Users)
    requires 0 <= i < 10
    ensures t.temperature.Keys == s.temperature.Keys + {u}
    ensures t.temperature[u] == i
    ensures forall v :: v in s.temperature && v != u ==> t.temperature[v] == s.temperature[v]
    ensures t.history == s.history
  {
    s.(temperature := s.temperature[u := i])
  }

  /** The prompt for a new message: the prior turns and the message, each
      on its own line. */
  function ChatPrompt(s: Users, u: UserId, text: string): (prompt: string)
    ensures prompt == if HistoryOf(s, u) == [] then text else Join(HistoryOf(s, u)) + "\n" + text
  {
    JoinSnoc(HistoryOf(s, u), text);
    Join(HistoryOf(s, u) + [text])
  }

  /** chat: the user's history is materialised (empty when absent) and, only
      when the backend answered with a non-empty text, extended by the
      message and the answer. Temperatures and other users never change. */
  function ChatUsers(s: Users, u: UserId, text: string, c: Completion): (t: Users)
    ensures t.history.Keys == s.history.Keys + {u}
    ensures t.history[u] == if Answered(c) then HistoryOf(s, u) + [text, c.text] else HistoryOf(s, u)
    ensures forall v :: v in s.history && v != u ==> t.history[v] == s.history[v]
    ensures t.temperature == s.temperature
  {
    var materialised := s.history[u := HistoryOf(s, u)];
    match c
    case Completed(result) =>
      if result == "" then s.(history := materialised)
      else s.(history := materialised[u := materialised[u] + [text] + [result]])
    case InvalidRequest => s.(history := materialised)
    case Failed => s.(history := materialised)
  }

  /** The reply to a text message: the backend's text, the apology for an
      empty text, the "ask something more specific" text for a rejected
      request, and nothing when the backend failed otherwise. */
  function ChatReply(c: Completion): (r: Reply)
    ensures r.Text? <==> Answered(c)
    ensures r.Text? ==> r.message == c.text
    ensures r == Say(Apology) <==> c == Completed("")
    ensures r == Say(AskMoreSpecific) <==> c == InvalidRequest
    ensures r == NoReply <==> c == Failed
  {
    match c
    case Completed(result) => if result == "" then Say(Apology) else Text(result)
    case InvalidRequest => Say(AskMoreSpecific)
    case Failed => NoReply
  }

  /** Whether a handler is one the routing table can name: a temperature
      it sets is a single digit of tenths. */
  predicate Routable(c: Callback)
  {
    c.SetTemp? ==> 0 <= c.tenths < 10
  }

  /** A routed handler run for the user who pressed the button. */
  function Handle(s: Users, u: UserId, c: Callback): (h: Handled)
    requires Routable(c)
    ensures !c.Reset? ==> h.users.history == s.history
    ensures !c.SetTemp? ==> h.users.temperature == s.temperature
    ensures h.reply.Answer? <==> !c.ShowMenu?
  {
    match c
    case Reset => Handled(ResetUser(s, u), Answer(HistoryCleared))
    case ShowMenu => Handled(s, TemperatureMenu(ChooseTemperature, MenuPayloads()))
    case SetTemp(i) => Handled(SetUserTemperature(s, u, i), Answer(TemperatureSet(i)))
    case Invalid => Handled(s, Answer(InvalidOption))
  }

  /** button_callback: the handler the payload is routed to, run for the
      user who pressed the button. */
  function Press(s: Users, u: UserId, payload: string): (h: Handled)
    ensures payload !in CallbackTable() ==> h == Handled(s, Answer(InvalidOption))
    ensures h.users.history != s.history ==> payload == "reset"
    ensures h.users.temperature != s.temperature ==> |payload| == 13 && payload[..12] == "temperature_"
  {
    DispatchIsClassify(payload);
    Handle(s, u, Dispatch(payload))
  }

  /** One inbound event handled. */
  function Step(s: Users, e: Event): (h: Handled)
    ensures h.users.history.Keys >= s.history.Keys && h.users.temperature.Keys >= s.temperature.Keys
    ensures e.TextMessage? ==> h.users.temperature == s.temperature
  {
    match e
    case StartCommand(u) => Handled(StartUser(s, u), Say(Greeting))
    case TextMessage(u, text, c) => Handled(ChatUsers(s, u, text, c), ChatReply(c))
    case ButtonPress(u, payload) => Press(s, u, payload)
  }

  /** The state after a sequence of events, handled one at a time. */
  function Run(s: Users, events: seq<Event>): (t: Users)
    ensures t.history.Keys >= s.history.Keys && t.temperature.Keys >= s.temperature.Keys
    decreases |events|
  {
    if events == [] then s else Run(Step(s, events[0]).users, events[1..])
  }

  /** Every history holds an even number of turns: pairs of message and
      answer. */
  ghost predicate EvenHistories(s: Users)
  {
    forall v :: v in s.history ==> |s.history[v]| % 2 == 0
  }

  /** Every temperature is one the bot can set or give by default. */
  ghost predicate TemperaturesInRange(s: Users)
  {
    forall v :: v in s.temperature ==> 0 <= s.temperature[v] < 10
  }

  /** Pressing the 0.7 button sets the temperature to 7 tenths and says
      so. */
  lemma PressSeven(s: Users, u: UserId, payload: string)
    requires payload == "temperature_7"
    ensures Press(s, u, payload) == Handled(SetUserTemperature(s, u, 7), Answer(TemperatureSet(7)))
    ensures NoticeText(Press(s, u, payload).reply.notice) == "Temperature set to 0.7."
  {
    assert TemperaturePayload(7) == payload;
    DispatchSetTemp(payload, 7);
    PressSetTemp(s, u, payload, 7);
    NoticeSeven();
  }

  /** A payload routed to SetTemp(i) sets the user's temperature to i
      tenths and acknowledges it. */
  lemma PressSetTemp(s: Users, u: UserId, payload: string, i: int)
    requires Dispatch(payload) == SetTemp(i)
    ensures 0 <= i < 10
    ensures Press(s, u, payload) == Handled(SetUserTemperature(s, u, i), Answer(TemperatureSet(i)))
  {
  }

  /** The acknowledgement of 7 tenths, spelled out. */
  lemma NoticeSeven()
    ensures NoticeText(TemperatureSet(7)) == "Temperature set to 0.7."
  {
    assert Digit(7) == '7';
  }

  /** start keeps every history even: it adds at most an empty one. */
  lemma StartKeepsEven(s: Users, u: UserId)
    requires EvenHistories(s)
    ensures EvenHistories(StartUser(s, u))
  {
  }

  /** start keeps every temperature in range: the default is in range. */
  lemma StartKeepsTemperatures(s: Users, u: UserId)
    requires TemperaturesInRange(s)
    ensures TemperaturesInRange(StartUser(s, u))
  {
  }

  /** A routed handler keeps every temperature in range: it sets one to a
      digit or changes none. */
  lemma HandleKeepsTemperatures(s: Users, u: UserId, c: Callback)
    requires Routable(c)
    requires TemperaturesInRange(s)
    ensures TemperaturesInRange(Handle(s, u, c).users)
  {
  }

  /** A chat step keeps every history even: it adds two turns or none. */
  lemma ChatKeepsEven(s: Users, u: UserId, text: string, c: Completion)
    requires EvenHistories(s)
    ensures EvenHistories(ChatUsers(s, u, text, c))
  {
    var t := ChatUsers(s, u, text, c);
    forall v | v in t.history
      ensures |t.history[v]| % 2 == 0
    {
      if v == u {
        assert |HistoryOf(s, u)| % 2 == 0;
      }
    }
  }

  /** A routed handler keeps every history even: it empties one or changes
      none. */
  lemma HandleKeepsEven(s: Users, u: UserId, c: Callback)
    requires Routable(c)
    requires EvenHistories(s)
    ensures EvenHistories(Handle(s, u, c).users)
  {
    if c == Reset {
      var t := ResetUser(s, u);
      forall v | v in t.history
        ensures |t.history[v]| % 2 == 0
      {
        if v == u {
          assert t.history[v] == [];
        }
      }
    }
  }

  /** Handling one event keeps every history even. */
  lemma StepKeepsEven(s: Users, e: Event)
    requires EvenHistories(s)
    ensures EvenHistories(Step(s, e).users)
  {
    match e
    case StartCommand(u) =>
      assert Step(s, e).users == StartUser(s, u);
      StartKeepsEven(s, u);
    case TextMessage(u, text, c) =>
      assert Step(s, e).users == ChatUsers(s, u, text, c);
      ChatKeepsEven(s, u, text, c);
    case ButtonPress(u, payload) =>
      var callback := Dispatch(payload);
      assert Step(s, e) == Handle(s, u, callback);
      HandleKeepsEven(s, u, callback);
  }

  /** Every history stays even over any run that starts with even
      histories. */
  lemma {:induction false} RunKeepsEven(s: Users, events: seq<Event>)
    requires EvenHistories(s)
    ensures EvenHistories(Run(s, events))
    decreases |events|
  {
    if events != [] {
      StepKeepsEven(s, events[0]);
      RunKeepsEven(Step(s, events[0]).users, events[1..]);
    }
  }

  /** From empty registries, every history is a sequence of message and
      answer pairs whatever events arrive. */
  lemma FromEmptyEven(events: seq<Event>, u: UserId)
    requires u in Run(Users(map[], map[]), events).history
    ensures |Run(Users(map[], map[]), events).history[u]| % 2 == 0
  {
    RunKeepsEven(Users(map[], map[]), events);
  }

  /** Handling one event keeps every temperature in range. */
  lemma StepKeepsTemperatures(s: Users, e: Event)
    requires TemperaturesInRange(s)
    ensures TemperaturesInRange(Step(s, e).users)
  {
    match e
    case StartCommand(u) =>
      assert Step(s, e).users == StartUser(s, u);
      StartKeepsTemperatures(s, u);
    case TextMessage(u, text, c) =>
      assert Step(s, e).users.temperature == s.temperature;
    case ButtonPress(u, payload) =>
      var callback := Dispatch(payload);
      assert Step(s, e) == Handle(s, u, callback);
      HandleKeepsTemperatures(s, u, callback);
  }

  /** Every temperature stays in range over any run that starts with
      temperatures in range. */
  lemma {:induction false} RunKeepsTemperatures(s: Users, events: seq<Event>)
    requires TemperaturesInRange(s)
    ensures TemperaturesInRange(Run(s, events))
    decreases |events|
  {
    if events != [] {
      StepKeepsTemperatures(s, events[0]);
      RunKeepsTemperatures(Step(s, events[0]).users, events[1..]);
    }
  }

  /** Resetting twice is resetting once. */
  lemma ResetIdempotent(s: Users, u: UserId)
    ensures ResetUser(ResetUser(s, u), u) == ResetUser(s, u)
  {
  }

  /** Starting twice is starting once, and start changes nothing for a user
      who has both entries. */
  lemma StartIdempotent(s: Users, u: UserId)
    ensures StartUser(StartUser(s, u), u) == StartUser(s, u)
    ensures u in s.history && u in s.temperature ==> StartUser(s, u) == s
  {
  }

  /** The stored temperature plays no part in a chat step: two states with
      the same histories give the same prompt, the same request temperature
      and the same new histories. */
  lemma ChatIgnoresTemperature(s1: Users, s2: Users, u: UserId, text: string, c: Completion)
    requires s1.history == s2.history
    ensures ChatPrompt(s1, u, text) == ChatPrompt(s2, u, text)
    ensures ChatUsers(s1, u, text, c).history == ChatUsers(s2, u, text, c).history
  {
  }

  /** When no turn and not the message holds a newline, the prompt gives
      back the turns and the message: the whole history is resent. */
  lemma ChatPromptCarriesHistory(s: Users, u: UserId, text: string)
    requires forall k :: 0 <= k < |HistoryOf(s, u)| ==> '\n' !in HistoryOf(s, u)[k]
    requires '\n' !in text
    ensures Split(ChatPrompt(s, u, text)) == HistoryOf(s, u) + [text]
  {
    var parts := HistoryOf(s, u) + [text];
    assert forall k :: 0 <= k < |parts| ==> '\n' !in parts[k] by {
      forall k | 0 <= k < |parts| ensures '\n' !in parts[k] {
        if k < |HistoryOf(s, u)| {
          assert parts[k] == HistoryOf(s, u)[k];
        }
      }
    }
    SplitJoin(parts);
  }
}
