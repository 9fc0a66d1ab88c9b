/** The running bot: the two module-level registries of the program, updated
    in place by the command, button and message handlers. Each handler is
    specified by its counterpart on values in module Registry.

    The registries are written through to storage by some handlers and not
    by others; the ghost fields record what storage last received. */
module Bot {
  import opened Callbacks
  import opened Prompt
  import opened Registry

  class BotState {
    /** user to conversation turns */
    var history: map<UserId, seq<string>>
    /** user to temperature, in tenths */
    var temperature: map<UserId, int>

    /** The history table as last written to storage. */
    ghost var savedHistory: map<UserId, seq<string>>
    /** The temperature table as last written to storage. */
    ghost var savedTemperature: map<UserId, int>

    /** The registries as a value. */
    function State(): Users
      reads this
    {
      Users(history, temperature)
    }

    /** The registries as loaded from storage at start-up. */
    constructor (loadedHistory: map<UserId, seq<string>>, loadedTemperature: map<UserId, int>)
      ensures history == loadedHistory && temperature == loadedTemperature
      ensures savedHistory == loadedHistory && savedTemperature == loadedTemperature
    {
      history := loadedHistory;
      temperature := loadedTemperature;
      savedHistory := loadedHistory;
      savedTemperature := loadedTemperature;
    }

    /** reset: empties the user's history and acknowledges; storage is not
        written. */
    method Reset(user: UserId) returns (reply: Reply)
      modifies this
      ensures State() == ResetUser(old(State()), user)
      ensures reply == Answer(HistoryCleared)
      ensures savedHistory == old(savedHistory) && savedTemperature == old(savedTemperature)
    {
      history := history[user := []];
      reply := Answer(HistoryCleared);
    }

    /** start: greets the user and fills in whichever of their entries is
        missing; storage is not written. */
    method Start(user: UserId) returns (reply: Reply)
      modifies this
      ensures State() == StartUser(old(State()), user)
      ensures reply == Say(Greeting)
      ensures savedHistory == old(savedHistory) && savedTemperature == old(savedTemperature)
    {
      reply := Say(Greeting);
      if user !in history {
        history := history[user := []];
      }
      if user !in temperature {
        temperature := temperature[user := DefaultTemperature];
      }
    }

    /** generate_temperature_buttons: the menu of five temperatures; no
        state changes. */
    method GenerateTemperatureButtons() returns (reply: Reply)
      ensures reply == TemperatureMenu(ChooseTemperature, MenuPayloads())
      ensures |reply.payloads| == 5
      ensures forall k :: 0 <= k < 5 ==> Dispatch(reply.payloads[k]) == SetTemp(2 * k + 1)
    {
      var payloads := MenuPayloads();
      forall k | 0 <= k < 5
        ensures Dispatch(payloads[k]) == SetTemp(2 * k + 1)
      {
        MenuPayloadsRouted(k);
      }
      reply := TemperatureMenu(ChooseTemperature, payloads);
    }

    /** set_temperature: stores i tenths for the user, writes the
        temperature table through to storage and acknowledges. */
    method SetTemperature(i: int, user: UserId) returns (reply: Reply)
      requires 0 <= i < 10
      modifies this
      ensures State() == SetUserTemperature(old(State()), user, i)
      ensures reply == Answer(TemperatureSet(i))
      ensures savedTemperature == temperature && savedHistory == old(savedHistory)
    {
      temperature := temperature[user := i];
      savedTemperature := temperature;
      reply := Answer(TemperatureSet(i));
    }

    /** invalid_callback: acknowledges an unknown payload; no state
        changes. */
    method InvalidCallback() returns (reply: Reply)
      ensures reply == Answer(InvalidOption)
    {
      reply := Answer(InvalidOption);
    }

    /** Runs a routed handler for the user who pressed the button. */
    method Invoke(user: UserId, callback: Callback) returns (reply: Reply)
      requires Routable(callback)
      modifies this
      ensures Handled(State(), reply) == Handle(old(State()), user, callback)
      ensures savedHistory == old(savedHistory)
      ensures savedTemperature == if callback.SetTemp? then temperature else old(savedTemperature)
    {
      match callback
      case Reset =>
        reply := this.Reset(user);
      case ShowMenu =>
        reply := GenerateTemperatureButtons();
      case SetTemp(i) =>
        reply := SetTemperature(i, user);
      case Invalid =>
        reply := InvalidCallback();
    }

    /** button_callback: looks the payload up in the routing table, with
        the invalid-option handler as the default, and runs the handler. */
    method ButtonCallback(user: UserId, payload: string) returns (reply: Reply)
      modifies this
      ensures Handled(State(), reply) == Press(old(State()), user, payload)
      ensures savedHistory == old(savedHistory)
      ensures savedTemperature == if Dispatch(payload).SetTemp? then temperature else old(savedTemperature)
    {
      var callback := Dispatch(payload);
      reply := Invoke(user, callback);
    }

    /** The first lines of chat: a user without a history gets an empty
        one. */
    method MaterialiseHistory(user: UserId)
      modifies this
      ensures history == old(history)[user := HistoryOf(old(State()), user)]
      ensures temperature == old(temperature)
      ensures savedHistory == old(savedHistory) && savedTemperature == old(savedTemperature)
    {
      if user !in history {
        history := history[user := []];
      }
    }

    /** The message and the backend's answer appended to the user's
        history, which is then written through to storage. */
    method RecordExchange(user: UserId, text: string, result: string)
      requires user in history
      modifies this
      ensures history == old(history)[user := old(history)[user] + [text] + [result]]
      ensures savedHistory == history
      ensures temperature == old(temperature) && savedTemperature == old(savedTemperature)
    {
      history := history[user := history[user] + [text]];
      history := history[user := history[user] + [result]];
      savedHistory := history;
    }

    /** chat: materialises the user's history, asks the backend for a
        completion of the joined turns at the fixed temperature, and only on
        a non-empty text records the message and the text and writes the
        history table through to storage. The completion the backend gives
        for the request is the parameter `completion`. */
    method Chat(user: UserId, text: string, completion: Completion) returns (request: Request, reply: Reply)
      modifies this
      ensures request == Request(Engine, ChatPrompt(old(State()), user, text), MaxTokens, ChatTemperature)
      ensures Handled(State(), reply) == Handled(ChatUsers(old(State()), user, text, completion), ChatReply(completion))
      ensures savedHistory == if Answered(completion) then history else old(savedHistory)
      ensures savedTemperature == old(savedTemperature)
      ensures old(EvenHistories(State())) ==> EvenHistories(State())
    {
      ghost var before := State();
      if EvenHistories(before) {
        ChatKeepsEven(before, user, text, completion);
      }
      MaterialiseHistory(user);
      request := Request(Engine, Join(history[user] + [text]), MaxTokens, ChatTemperature);
      match completion
      case Completed(result) =>
        if result == "" {
          reply := Say(Apology);
          return;
        }
        RecordExchange(user, text, result);
        reply := Text(result);
      case InvalidRequest =>
        reply := Say(AskMoreSpecific);
      case Failed =>
        reply := NoReply;
    }
  }

  /** A first-time user's first message, answered: the prompt is the
      message alone and the history becomes the message and the answer. */
  method FirstMessage()
  {
    var bot := new BotState(map[], map[]);
    var request, reply := bot.Chat(42, "Hello", Completed("Hi there!"));
    assert request.prompt == "Hello" && request.temperature == 5;
    assert bot.history[42] == ["Hello", "Hi there!"] && reply == Text("Hi there!");
    assert bot.savedHistory[42] == ["Hello", "Hi there!"];
  }

  /** A later message: the prompt carries the earlier turns, one per line. */
  method FollowUpMessage()
  {
    var turns := ["Hi", "Hey"];
    var bot := new BotState(map[42 := turns], map[]);
    ghost var before := bot.State();
    assert HistoryOf(before, 42) == turns;
    assert Join(turns) == "Hi\nHey";
    var request, reply := bot.Chat(42, "Ok", Completed("Sure"));
    assert request.prompt == ChatPrompt(before, 42, "Ok") == Join(turns) + "\n" + "Ok";
    assert request.prompt == "Hi\nHey\nOk";
  }

  /** The answered later message extends the history by the message and
      the answer. */
  method FollowUpRecorded()
  {
    var turns := ["Hello", "Hi there!"];
    var bot := new BotState(map[42 := turns], map[]);
    ghost var before := bot.State();
    assert HistoryOf(before, 42) == turns;
    var request, reply := bot.Chat(42, "Again", Completed("Sure"));
    assert bot.history[42] == ChatUsers(before, 42, "Again", Completed("Sure")).history[42];
    assert bot.history[42] == ["Hello", "Hi there!", "Again", "Sure"];
  }

  /** Messages the backend answers with an empty text or rejects leave the
      history as it was. */
  method UnansweredMessages()
  {
    var bot := new BotState(map[42 := ["Hello", "Hi there!"]], map[]);
    var request, reply := bot.Chat(42, "Tell me everything", Completed(""));
    assert reply == Say(Apology) && bot.history[42] == ["Hello", "Hi there!"];

    request, reply := bot.Chat(42, "Tell me more", InvalidRequest);
    assert reply == Say(AskMoreSpecific) && bot.history[42] == ["Hello", "Hi there!"];
  }

  /** The button for 0.7 sets and stores the temperature 7 tenths. */
  method TemperatureButton()
  {
    var bot := new BotState(map[], map[]);
    var payload := "temperature_7";
    PressSeven(bot.State(), 9, payload);
    var reply := bot.ButtonCallback(9, payload);
    assert bot.temperature[9] == 7 && bot.savedTemperature[9] == 7;
    assert reply == Answer(TemperatureSet(7));
    assert NoticeText(reply.notice) == "Temperature set to 0.7.";
  }

  /** The reset button empties the history but storage keeps the old one. */
  method ResetButton()
  {
    var bot := new BotState(map[42 := ["Hello", "Hi there!"]], map[]);
    DispatchReset("reset");
    var reply := bot.ButtonCallback(42, "reset");
    assert bot.history[42] == [] && bot.savedHistory[42] == ["Hello", "Hi there!"];
  }

  /** After a reset, storage keeps the old conversation only until some
      user's answered chat writes the whole history table. */
  method ResetThenOtherChat()
  {
    var bot := new BotState(map[1 := ["Hello", "Hi there!"]], map[]);
    var cleared := bot.Reset(1);
    assert bot.savedHistory[1] == ["Hello", "Hi there!"];
    var request, reply := bot.Chat(2, "Hi", Completed("Hello"));
    assert bot.savedHistory[1] == [];
  }

  /** A payload outside the table is acknowledged as invalid and changes
      nothing. */
  method UnknownButton()
  {
    var bot := new BotState(map[], map[9 := 7]);
    DispatchIsClassify("temperature_10");
    var reply := bot.ButtonCallback(42, "temperature_10");
    assert reply == Answer(InvalidOption) && bot.temperature == map[9 := 7];
  }
}
