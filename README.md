# Conversation state of the Nusabot Telegram bot, in Dafny

This project models the core of a Telegram bot that relays a user's
messages to a text-completion backend. Each user has a conversation
history and a temperature. It covers:

- the two per-user registries: user to conversation turns, and user to
  temperature;
- the handlers that change them: `/start`, the reset button, the
  temperature buttons and the text-message handler `chat`;
- the inline-button router: a fixed table from callback payload to
  handler, with a default for every other payload;
- the prompt that `chat` sends to the backend: every prior turn and the
  new message, joined by newlines.

Temperatures are counted in tenths: the program's 0.5 is 5 here. The
completion backend is a parameter. Each text message comes with the
backend's outcome for its prompt: a text (possibly empty), a rejected
request, or some other failure. The fixed texts the bot sends are a
`Notice` value; `Registry.NoticeText` holds their words exactly as the
program writes them.

Modules:

- `Callbacks` (callbacks.dfy): the routing table, `Dispatch`, the menu
  payloads and the decimal text of a temperature. These are pure functions.
- `Prompt` (prompt.dfy): the newline join and its inverse, the split.
- `Registry` (registry.dfy): the registries as a value `Users`, each
  handler as a function on it, `Step`/`Run` over a sequence of events, and
  the invariants those keep.
- `Bot` (bot.dfy): class `BotState`. It holds the two maps as fields that
  its handler methods update in place. Every method's postcondition ties
  the new state and the reply to the matching `Registry` function. Two
  ghost fields record what storage last received. Short client methods
  replay sample conversations.

Behaviour of the code that the model keeps as it is:

- `chat` always asks for temperature 0.5 (src/main.py:126). It never reads
  the user's stored temperature (`Registry.ChatIgnoresTemperature`).
- The temperature menu has five buttons, 0.1, 0.3, 0.5, 0.7 and 0.9
  (src/main.py:81-82). The router still accepts all ten payloads
  `temperature_0` to `temperature_9` (src/main.py:103-106).
- Only `set_temperature` and a `chat` that got an answer write through to
  storage (src/main.py:90, src/main.py:137). `reset` and `start` do not. After a
  reset, storage keeps the old conversation until the next answered chat
  of any user writes the whole table (`Bot.ResetButton`,
  `Bot.ResetThenOtherChat`).
- The "ask something more specific" reply answers any request the backend
  rejects as invalid (`openai.error.InvalidRequestError`,
  src/main.py:139-141), not only an over-long one.
- A fixed text and the backend's text go out through the same call
  (src/main.py:70-71). The model tags the fixed ones (`Say` rather than
  `Text`), so `Registry.ChatReply` can tell each outcome apart. A user
  cannot: a backend answer that reads like the apology looks the same.
- The prompt does not mark where one turn ends and the next begins. A turn
  that contains a newline cannot be told apart from two turns
  (`Prompt.JoinAmbiguous`).

## Model

| member | source | states |
|---|---|---|
| Callbacks.Digit | src/main.py:104 | the digit character of a number below ten, whose code minus '0' is that number |
| Callbacks.TemperaturePayload | src/main.py:104 | the payload for i tenths is 13 characters long and ends in the digit of i |
| Callbacks.TemperaturePayloadPrefix | src/main.py:104 | every temperature payload starts with "temperature_" |
| Callbacks.TemperaturePayloadInjective | src/main.py:103-106 | different digits give different payloads, so the comprehension's keys do not collide |
| Callbacks.TemperaturePayloads | src/main.py:103-106 | the keys of the temperature part: every one is 13 characters long and ends in a digit |
| Callbacks.DigitValue | src/main.py:104-105 | the number a digit character stands for, below ten, whose digit is that character |
| Callbacks.TemperatureCallbacks | src/main.py:103-106 | the comprehension maps `temperature_<i>` to SetTemp(i) for every i in 0..9; its keys are exactly the ten temperature payloads |
| Callbacks.CallbackTable | src/main.py:98-108 | the merged table routes "reset" to Reset, "temperature" to ShowMenu and `temperature_<i>` to SetTemp(i) for every i in 0..9; no entry is the invalid-option handler |
| Callbacks.Dispatch | src/main.py:111-114 | the lookup with a default: the result is Invalid exactly when the payload is not in the table, and any SetTemp it gives is in 0..9 |
| Callbacks.PayloadOfDigit | src/main.py:104-105 | a 13-character string made of "temperature_" and a digit is the payload of that digit |
| Callbacks.DispatchIsClassify | src/main.py:98-114 | the table lookup agrees on every string with an independent reading of the payload's shape |
| Callbacks.DispatchReset | src/main.py:100 | the handler is Reset if and only if the payload is "reset" |
| Callbacks.DispatchShowMenu | src/main.py:101 | the handler is ShowMenu if and only if the payload is "temperature" |
| Callbacks.DispatchSetTemp | src/main.py:103-106 | the handler is SetTemp(i) if and only if i is in 0..9 and the payload is `temperature_<i>` |
| Callbacks.CallbackTableKeys | src/main.py:98-108 | the table's keys are exactly "reset", "temperature" and the ten temperature payloads |
| Callbacks.DispatchInvalid | src/main.py:114 | a payload goes to the invalid-option handler if and only if it is not one of those twelve; dispatch never fails |
| Callbacks.TemperaturePayloadsSpelled | src/main.py:104-105 | the ten temperature payloads spelled out, "temperature_0" to "temperature_9" |
| Callbacks.PayloadsFromAt | src/main.py:81-82 | the k-th button of `range(i, 10, 2)` carries the payload of i + 2k |
| Callbacks.PayloadsFrom | src/main.py:81-82 | the payloads of `range(i, 10, 2)`: ceil((10 - i) / 2) of them; its elements are stated by PayloadsFromAt |
| Callbacks.MenuPayloads | src/main.py:79-83 | the menu's comprehension over `range(1, 10, 2)`: five payloads, the k-th being `temperature_<2k+1>` |
| Callbacks.MenuPayloadsRouted | src/main.py:79-83 | the menu has exactly five buttons, and the k-th carries `temperature_<2k+1>` and is routed to SetTemp(2k+1), never to Invalid |
| Callbacks.MenuPayloadsExact | src/main.py:79-83 | the menu's payloads are exactly temperature_1, _3, _5, _7 and _9, in that order |
| Callbacks.TenthsText | src/main.py:91 | i tenths (i below ten) prints as "0." followed by the digit of i |
| Prompt.Join | src/main.py:120 | `"\n".join`: nothing joins to "", the first part starts the result, and a newline follows it when more parts come; JoinSnoc, JoinLength and SplitJoin state the rest |
| Prompt.JoinSnoc | src/main.py:120 | joining a further part adds a newline and the part, or gives the part alone after nothing |
| Prompt.JoinLength | src/main.py:120 | the prompt's length is the parts' total length plus one newline per gap |
| Prompt.Split | src/main.py:120 | cutting at newlines gives at least one piece, and no piece holds a newline |
| Prompt.SplitNoNewline | src/main.py:120 | a string without a newline is a single piece |
| Prompt.SplitAfterHead | src/main.py:120 | cutting a newline-free head, a newline and a tail gives the head followed by the tail's pieces |
| Prompt.SplitJoin | src/main.py:120 | splitting undoes the join when no part holds a newline |
| Prompt.JoinAmbiguous | src/main.py:120 | one turn "a\nb" and the two turns "a", "b" give the same prompt |
| Registry.TemperatureNotice | src/main.py:91 | the acknowledgement reads "Temperature set to 0.<digit>." |
| Registry.NoticeText | src/main.py:49-141 | the words of each fixed reply, as the program writes them at lines 49, 54, 85, 91, 95, 132 and 141; a temperature acknowledgement is TemperatureNotice of its tenths |
| Registry.NoticeSeven | src/main.py:91 | the acknowledgement for 7 tenths is "Temperature set to 0.7." |
| Registry.ResetUser | src/main.py:46-49 | the user's history becomes empty; every temperature and every other user's history is unchanged |
| Registry.StartUser | src/main.py:52-59 | afterwards the user has both entries; a missing history becomes [] and a missing temperature 5 tenths; existing entries and other users are unchanged |
| Registry.SetUserTemperature | src/main.py:87-91 | the user's temperature becomes i tenths; other temperatures and all histories are unchanged |
| Registry.ChatPrompt | src/main.py:117-120 | the prompt is the message alone after no turns, otherwise the joined turns, a newline and the message |
| Registry.ChatUsers | src/main.py:117-137 | the history is materialised; it grows by [message, answer] only for a non-empty answer; other users and all temperatures are unchanged |
| Registry.ChatReply | src/main.py:128-141 | each outcome has its own reply, both ways: the backend's text exactly for a non-empty text, the apology exactly for an empty one, the "more specific" text exactly for a rejected request, and no reply exactly when the backend failed otherwise |
| Registry.Handle | src/main.py:100-106 | running a routed handler: only Reset changes histories, only SetTemp changes temperatures, and every handler but the menu answers the button query |
| Registry.Press | src/main.py:111-114 | button_callback: a payload outside the table leaves the state as it is and answers "Invalid option."; only "reset" changes histories; only a `temperature_` payload changes temperatures |
| Registry.Step | src/main.py:161-163 | one event handled: no user loses an entry, and a text message never changes temperatures |
| Registry.Run | src/main.py:161-163 | the state after a sequence of events: no user loses an entry along the way |
| Registry.PressSetTemp | src/main.py:87-91 | a payload routed to SetTemp(i) sets the user's temperature to i tenths, with i in 0..9, and acknowledges it |
| Registry.PressSeven | src/main.py:87-91 | the payload "temperature_7" sets the temperature to 7 tenths and acknowledges with "Temperature set to 0.7." |
| Registry.StartKeepsEven | src/main.py:56-57 | start keeps every history at an even length |
| Registry.ChatKeepsEven | src/main.py:134-136 | a chat step keeps every history at an even length |
| Registry.HandleKeepsEven | src/main.py:46-49 | a routed button handler keeps every history at an even length |
| Registry.StepKeepsEven | src/main.py:161-163 | handling any event keeps every history at an even length |
| Registry.RunKeepsEven | src/main.py:161-163 | any sequence of events keeps histories at an even length if they started so |
| Registry.FromEmptyEven | src/main.py:43 | from empty registries, every history reached by any events has even length |
| Registry.StartKeepsTemperatures | src/main.py:58-59 | start keeps every temperature in 0..9 tenths: the default is 5 |
| Registry.HandleKeepsTemperatures | src/main.py:87-91 | a routed button handler keeps every temperature in 0..9 tenths |
| Registry.StepKeepsTemperatures | src/main.py:161-163 | handling any event keeps every temperature in 0..9 tenths |
| Registry.RunKeepsTemperatures | src/main.py:161-163 | any sequence of events keeps temperatures in 0..9 tenths if they started so |
| Registry.ResetIdempotent | src/main.py:46-49 | resetting twice is resetting once |
| Registry.StartIdempotent | src/main.py:56-59 | starting twice is starting once, and start changes nothing for a user who has both entries |
| Registry.ChatIgnoresTemperature | src/main.py:122-127 | the stored temperature has no effect on the prompt or on the new histories |
| Registry.ChatPromptCarriesHistory | src/main.py:120 | without newlines in the turns, splitting the prompt gives back the whole history followed by the message |
| Bot.BotState.constructor | src/main.py:43-44 | the registries start as loaded, and storage holds what was loaded |
| Bot.BotState.Reset | src/main.py:46-49 | the new state is ResetUser of the old; the "history cleared" notice is returned; storage is not written |
| Bot.BotState.Start | src/main.py:52-59 | the new state is StartUser of the old; the greeting is returned; storage is not written |
| Bot.BotState.GenerateTemperatureButtons | src/main.py:78-85 | the menu text with the five payloads, each routed to SetTemp(2k+1) |
| Bot.BotState.SetTemperature | src/main.py:87-91 | the new state is SetUserTemperature of the old; the temperature table is written to storage; the acknowledgement is returned |
| Bot.BotState.InvalidCallback | src/main.py:94-95 | the reply is the "Invalid option." notice |
| Bot.BotState.Invoke | src/main.py:100-106 | running a routed handler gives the state and reply of Handle; storage is written only by the temperature handler |
| Bot.BotState.ButtonCallback | src/main.py:111-114 | state and reply are those of the routed handler; storage is written only for a temperature payload |
| Bot.BotState.MaterialiseHistory | src/main.py:118-119 | a user without a history gets an empty one; every other entry is unchanged |
| Bot.BotState.RecordExchange | src/main.py:134-137 | the message and then the answer are appended to the user's history, and the history table is written to storage |
| Bot.BotState.Chat | src/main.py:117-141 | the request names the fixed engine, the joined prompt, 1024 tokens and temperature 5 tenths; state and reply follow ChatUsers and ChatReply; storage is written only after a non-empty answer; even histories stay even |

## Left out

- Storage: `load_yml`, `save_yml` and the four load and save helpers (src/main.py:11-40) read and write YAML files. The constructor takes the loaded maps. A write is modelled as copying a map into a ghost field.
- The credential bootstrap `load_cred` and the wiring in `main` (src/main.py:144-166). They read the console and files and start Telegram polling. Which handler an update reaches is the `Event` datatype.
- Telegram reply plumbing: `reply_text`, `reply_query`, `get_reply_markup` and the keyboard objects (src/main.py:61-75, src/main.py:84-85). These are foreign UI objects. A reply is a `Reply` value. The menu keeps only its payloads, not the button labels or the reply keyboard.
- The completion call itself (src/main.py:122-128). It is a network call. Its outcome is the `Completion` parameter of `Chat`, and the request it would send is returned as a `Request` value.
- Floating-point temperatures: they are integer tenths. The unused constant `TEMPERATURE` (src/main.py:9) is left out.
- `print` logging and the `@cache` memoisation (src/main.py:61, src/main.py:97, src/main.py:131, src/main.py:140). They have no effect on the state or the replies.
- Concurrent delivery of updates by the Telegram dispatcher. Handlers run one at a time here.
- Exceptions from Telegram calls, such as a failed `reply_text`, are not modelled.
- Registry.SetUserTemperature: takes only 0..9. Those are the only values its one caller, the routing table, passes. The decimal text of other values is not modelled.
- Bot.BotState.SetTemperature: takes only 0..9, for the same reason.
- The user who pressed a button (`callback_query.from_user`) and the effective user of the update are the same person. Both are one `UserId`.
