# Nutrition coach backend — a Dafny model

A Dafny model of `server.py`, a small Flask backend for an AI nutrition coach.

- **Logging in.** A single shared password (`APP_PASSWORD`) unlocks a cookie-bound session.
  - A login that finds no user creates one. With requests handled one at a time, that is the only user.
  - Every other route except `/health` requires the session.
- **Preferences.** A GET returns the user's preferences, which are stored as JSON. A POST replaces them.
- **Conversations.** The user keeps conversations, most recently updated first.
- **A chat turn.** It stores the user's message, then asks a chat completion for a reply.
  - The completion input is a system prompt with the preferences, the last twelve stored messages and the new turn.
  - When the completion call raises, the turn is rolled back. Otherwise the reply and the conversation's new `updated_at` are committed.
- **The legacy `/chat` route** does the same on the user's latest conversation. It creates one titled "Coach" when the user has none.
- **`/plan`** asks the completion for a JSON meal plan, or uses a fixed four-meal plan. It normalises each meal into a numbered record, with defaults and at most eight items.

The model has six modules:

- `Maybe`: optional values, and `x or ""` for a string field.
- `PyText`: Python's `str.strip()`, `str(n)` and base-10 `int(s)`, each with the whitespace set CPython uses for it. `int(s)` refuses more than 4300 digits, CPython's default limit on int/str conversion since Python 3.11.
- `Json`: parsed JSON values, with Python's truthiness, `dict.get`, `int(v)` and slicing. An exception is an `Err` carrying its class (for slicing a `dict`, the class before Python 3.12).
- `MealPlan`: the normalising loop of `/plan`, as a method proved against a specification by functions.
- `ChatContext`: the completion input of the chat routes, with its twelve-message window.
- `Backend`: the four tables as a `DB` value, and the writes the routes make on it.
  - `Consistent` is the invariant every write preserves: unique ids, owners that exist, timestamps in the past, and conversations in `updated_at` order.
  - The classes `Session` and `Store` hold the session dict and the database, which the route methods update in place.
  - Each route method states its new state as one of the pure writes applied to the old state.

## Model

| member | source | states |
|---|---|---|
| Maybe.OrEmpty | server.py:103 | `x or ""` is empty exactly when the field is missing or empty; a non-empty result is the field itself. |
| PyText.Trim | server.py:103 | The result is a slice of the input with only blanks outside it. It neither starts nor ends with a blank, and it is empty exactly when the input is all blanks. |
| PyText.Strip | server.py:92 | `str.strip()` is `Trim` with `str.isspace()`'s set; its properties are `Trim`'s. |
| PyText.TrimUntouched | server.py:103-104 | A string with no blank at either end is returned unchanged. |
| PyText.TrimIdempotent | server.py:92 | Trimming an already trimmed string changes nothing. |
| PyText.SeparatorOnlyStripped | server.py:266 | U+001C is whitespace to `str.strip()` but not to `int()`, which keeps it and then raises. |
| PyText.NatToString | server.py:265 | The decimal rendering of a number is non-empty, all digits, and has no leading zero. |
| PyText.DecimalValueOfNatToString | server.py:266 | The decimal rendering of a number denotes that number. |
| PyText.DigitsUnpadded | server.py:266 | A string of digits, with or without a leading minus, has no whitespace to strip. |
| PyText.ParseDigits | server.py:266 | `int()` reads a string of at most 4300 digits as its decimal value. |
| PyText.ParseNegativeDigits | server.py:266 | `int()` reads a minus sign followed by at most 4300 digits as the negated decimal value. |
| PyText.ParseIntOfIntToString | server.py:266 | `int(str(n)) == n` for every integer of at most 4300 digits, negative ones included. Those are the integers whose `str()` CPython produces without raising. |
| PyText.TooManyDigits | server.py:266 | `int()` of more than 4300 digits raises `ValueError`, with or without a minus sign. |
| PyText.ParseIntBounded | server.py:266 | Every integer `int()` reads from a string lies strictly between -10^4300 and 10^4300. |
| Json.Or | server.py:141 | `v or alt` is `v` when `v` is truthy and `alt` otherwise, and it is truthy exactly when one of the two is. |
| Json.Get | server.py:265 | `dict.get` answers one of the dict's values or the default: the stored value when the key is present, the default when it is not. Any non-dict raises `AttributeError`. |
| Json.Trunc | server.py:266 | `int()` of a float truncates toward zero, for both signs. |
| Json.SliceTo | server.py:272 | `[:n]` of a list or a string is its prefix of length `min(n, len)`, so the whole value when it is short enough. Anything else raises. |
| Json.ToIntOfDecimal | server.py:266 | A kcal or macro written as a decimal string of at most 4300 digits is read back as that integer. |
| Json.ToIntIgnoresPadding | server.py:266 | `int()` of a string ignores the ASCII whitespace and non-ASCII `isspace()` characters around it. |
| Json.ToIntRejectsSeparator | server.py:266 | A string that `str.strip()` would reduce to `"5"` can still make `int()` raise `ValueError`. |
| MealPlan.MealsIn | server.py:248-260 | The loop always runs over a non-empty list. |
| MealPlan.BuildPlan | server.py:261-273 | The loop's result is the normalisation of the whole list: all records, or the first exception. |
| MealPlan.ErrorPersists | server.py:261-273 | Once an element raises, the loop ends with that exception. |
| MealPlan.CollectRecords | server.py:261-273 | When the loop completes there is one record per element, and record `k` is what element `k` gives. |
| MealPlan.CollectOkIff | server.py:261-273 | The loop succeeds exactly when every element succeeds. |
| MealPlan.CollectError | server.py:261-273 | A failing loop reports the exception of its first failing element, and all earlier elements succeed. |
| MealPlan.CollectFromRecords | server.py:261-273 | A list made of each element's own record is exactly what the loop builds. |
| MealPlan.NormaliseMealOkIff | server.py:263-273 | An element normalises exactly when it is a dict whose int fields, macros and items are all acceptable; a non-dict raises `AttributeError`. |
| MealPlan.MealDefaults | server.py:263-273 | Each field of a record is the element's value or the documented default (title `Meal #i`, 400 kcal, P 25, C 40, F 12), and it keeps at most 8 items. |
| MealPlan.MealId | server.py:264 | A record carries the id it was built under. |
| MealPlan.RenormaliseMeal | server.py:263-273 | Normalising a record's own JSON gives that record back. |
| MealPlan.MealLiteralNormalises | server.py:251-260 | A meal written as the fixed plan writes it normalises to its own values. |
| MealPlan.FallbackNormalises | server.py:251-273 | The fixed plan, normalised, is its four records. |
| MealPlan.PlanFallback | server.py:248-260 | Without a non-empty list from the completion, the answer is the fixed plan, numbered 1 to 4. |
| MealPlan.RowsNormalise | server.py:251-273 | A table of meals written as `dict` literals, each with at most 8 items, normalises to its records numbered from 1. |
| MealPlan.RowNormalises | server.py:251-273 | The `k`-th meal of such a table normalises to its record numbered `k + 1`. |
| MealPlan.PlanUsesReply | server.py:248-250 | A non-empty list from the completion is what gets normalised. |
| MealPlan.PlanNumbering | server.py:262-264 | Meals are numbered from 1 in input order, one per element. |
| MealPlan.PlanItems | server.py:272 | Every answered meal's items come from its element, `or []` and cut to 8. |
| MealPlan.PlanFailsIff | server.py:261-277 | The route fails exactly when some element is not acceptable, and then with the first failing element's exception. |
| MealPlan.PlanIdempotent | server.py:261-273 | Normalising an answered plan again gives the same plan. |
| MealPlan.RecordsRenormalise | server.py:261-273 | The records a list normalises to, rendered as JSON and normalised again, are the same records. |
| ChatContext.LastNIsSuffix | server.py:189 | `[-12:]` keeps the last `min(12, len)` messages, in order. |
| ChatContext.LastNIsEviction | server.py:189 | The window equals dropping the oldest message until at most twelve remain. |
| ChatContext.WindowSlides | server.py:189 | After one more message, the window is the old window plus that message, trimmed to twelve. |
| ChatContext.ContextShape | server.py:189-193 | The completion input is the system message, then the windowed history in order, then the new turn: at most 14 entries. |
| ChatContext.SystemPromptShape | server.py:190-191 | The system prompt is the base prompt, with preferences appended exactly when they are truthy. |
| Backend.UserIndex | server.py:85 | `db.get(User, uid)` finds the row with that id, or there is none. |
| Backend.ConvIndex | server.py:173 | `db.get(Conversation, cid)` finds the row with that id, or there is none. |
| Backend.MessagesOf | server.py:177 | A conversation's messages are exactly its rows, in id order. |
| Backend.ConvsOf | server.py:157-159 | The listing holds exactly the user's conversations. |
| Backend.ConvsOfByRecency | server.py:157-159 | The listing keeps the table's order, so it is by decreasing `updated_at`. |
| Backend.LatestOf | server.py:212-216 | The first conversation in `updated_at` order that belongs to the user, or none when the user has none. |
| Backend.AsChatAppend | server.py:189 | Each stored message becomes its own role/content entry, so a longer history renders as the shorter one's entries followed by the new ones. |
| Backend.AddUserConsistent | server.py:107-109 | Creating the first user keeps the tables consistent. |
| Backend.SetPrefsConsistent | server.py:140-146 | Storing preferences for a stored user keeps the tables consistent. |
| Backend.NewConversationConsistent | server.py:161-163 | A new conversation keeps the tables consistent and becomes the most recent one. |
| Backend.TouchKeepsOrder | server.py:197 | Setting `updated_at` to now moves the conversation to the front and keeps the recency order. |
| Backend.ExchangedConsistent | server.py:185-198 | A committed chat turn keeps the tables consistent. |
| Backend.MessagesOfAppend | server.py:185-189 | A flushed message joins the end of its own conversation's history and of no other. |
| Backend.ExchangedHistories | server.py:185-198 | A turn appends the user's and the assistant's message to that conversation's history, and leaves every other history unchanged. |
| Backend.ExchangedToFront | server.py:197 | After a turn, the conversation is found first in `updated_at` order, with a later `updated_at` than before. |
| Backend.ExchangeAppendsTwo | server.py:185-198 | A turn adds the user's message and then the assistant's to that conversation only, and makes it the most recently updated. |
| Backend.TurnContextEndsWithTurn | server.py:185-189 | Since the user's message is flushed before the history is read, the completion input ends with the new turn twice. |
| Backend.LatestHeadsListing | server.py:212-216 | The legacy route's conversation is the head of the user's listing and is strictly more recent than the user's others. |
| Backend.PaddedPasswordLocksOut | server.py:103-104 | No submission matches a configured password that has whitespace at either end. |
| Backend.LoginAcceptsPassword | server.py:103-104 | A password with no whitespace at either end matches when submitted, with or without padding. |
| Backend.Session.constructor | server.py:76 | A request without a session is not authenticated. |
| Backend.PlanRoute | server.py:231-277 | Without a session the answer is a 401, and a 500 when the completion raises. Otherwise it answers the normalised plan of the parsed reply, or a 500 when normalising that reply raises. |
| Backend.Store.constructor | server.py:18 | The store starts empty and consistent, with a non-empty password. |
| Backend.Store.Commit | server.py:109 | A commit makes a consistent set of rows and counters the stored state. |
| Backend.Store.Login | server.py:99-112 | The login succeeds exactly when the stripped submission equals the password. It creates the first user when there is none and signs in as the first user; a failure changes nothing. |
| Backend.Store.Logout | server.py:114-119 | An authenticated session is cleared, and any other session gets a 401. |
| Backend.Store.Me | server.py:121-128 | It answers the caller's id and stored preferences (`{}` when none), or a 401. |
| Backend.Store.GetPreferences | server.py:137-139 | It answers the caller's stored preferences, or `{}`, or a 401. |
| Backend.Store.SetPreferences | server.py:140-147 | It stores `data or {}` for the caller and changes nothing else; a later read gives exactly that. |
| Backend.Store.ListConversations | server.py:156-160 | It answers exactly the caller's conversations, most recently updated first. |
| Backend.Store.CreateConversation | server.py:161-164 | It adds a conversation titled `title or "New Conversation"` with the next id, at the head of the caller's listing. |
| Backend.Store.GetMessages | server.py:173-178 | The answer is a 404 unless the conversation exists and is the caller's; otherwise it is exactly that conversation's messages, in id order. |
| Backend.Store.Exchange | server.py:185-198 | The turn is committed with the stripped reply, or it changes nothing when the completion raises. |
| Backend.Store.PostMessage | server.py:166-199 | The failures come in order: 401, then 404, then 400 for a blank message, then 500 when the completion raises; none of them changes anything. Otherwise it commits the turn and answers the reply and the assistant message's id. |
| Backend.Store.ChatLegacy | server.py:204-229 | It runs a turn on the caller's latest conversation, or on a new "Coach" conversation that is kept even when the completion raises. A blank message is not refused. |
| PyText.IntToString | server.py:265 | Definition of `str(n)`; `NatToString` and `ParseIntOfIntToString` state its properties. |
| PyText.ParseInt | server.py:266 | Definition of base-10 `int(s)`; `ParseDigits`, `ParseNegativeDigits`, `ParseIntOfIntToString`, `TooManyDigits`, `ParseIntBounded` and `SeparatorOnlyStripped` state its properties. |
| Json.Truthy | server.py:141 | Definition of Python's `bool(v)` on JSON values; `Or` and `SystemPromptShape` use it. |
| Json.ToInt | server.py:266 | Definition of `int(v)`; `ToIntOfDecimal`, `ToIntIgnoresPadding`, `ToIntRejectsSeparator` and `NormaliseMealOkIff` state its properties. |
| MealPlan.IntField | server.py:266 | Definition of `int(m.get(key, default))`; `MealDefaults` states what it reads. |
| MealPlan.MacroField | server.py:268-270 | Definition of `int(m.get("macros", {}).get(key, default))`; `MealDefaults` states what it reads. |
| MealPlan.Items | server.py:272 | Definition of `(m.get("items") or [])[:8]`; `MealDefaults` and `PlanItems` state what it keeps. |
| MealPlan.NormaliseMeal | server.py:263-273 | Definition of one record; `NormaliseMealOkIff`, `MealDefaults`, `MealId` and `RenormaliseMeal` state its properties. |
| MealPlan.Plan | server.py:248-277 | Definition of the route's answer; `PlanFallback`, `PlanUsesReply`, `PlanNumbering`, `PlanItems`, `PlanFailsIff` and `PlanIdempotent` state its properties. |
| ChatContext.LastN | server.py:189 | Definition of `[-n:]`; `LastNIsSuffix`, `LastNIsEviction` and `WindowSlides` state its properties. |
| ChatContext.SystemPrompt | server.py:190-191 | Definition of the system prompt; `SystemPromptShape` states its properties. |
| ChatContext.Context | server.py:189-193 | Definition of the completion input; `ContextShape` states its properties. |
| Backend.PrefsOf | server.py:138 | Definition of the stored preferences, `{}` when there is no row; `Me` and `GetPreferences` answer it. |
| Backend.AddUser | server.py:107-109 | Definition of Login's insert; `AddUserConsistent` states that it keeps the invariant. |
| Backend.SetPrefs | server.py:140-146 | Definition of the preferences write; `SetPrefsConsistent` and `SetPreferences` state its properties. |
| Backend.NewConversation | server.py:161-163 | Definition of the conversation insert; `NewConversationConsistent` and `CreateConversation` state its properties. |
| Backend.Touch | server.py:197 | Definition of `c.updated_at = now` on the recency-ordered table; `TouchKeepsOrder` and `ExchangedToFront` state its properties. |
| Backend.TurnContext | server.py:185-193 | Definition of a turn's completion input; `TurnContextEndsWithTurn` states its properties. |
| Backend.Exchanged | server.py:185-198 | Definition of a committed turn; `ExchangedConsistent`, `ExchangedHistories`, `ExchangedToFront` and `ExchangeAppendsTwo` state its properties. |
| Backend.Admits | server.py:75-76 | Definition of `require_auth`'s test; `Session.constructor`, `Logout` and `PlanRoute` use it. |
| Backend.Store.Caller | server.py:83-85 | Definition of `require_auth` followed by `get_user`; every route method but `Login` and `Logout` answers 401 exactly when it is `None`. |
| Backend.Store.Owned | server.py:173-174 | Definition of the ownership test; `GetMessages` and `PostMessage` answer 404 exactly when it fails. |

## Left out

- Flask routing, `OPTIONS` preflight answers and CORS headers are not modelled. They are framework plumbing, not logic of the backend.
- SQLAlchemy sessions, flushes and lazy loading are not modelled. Their effect on each route is stated directly:
  - every write commits as a whole;
  - a raised completion rolls back what was only flushed;
  - a read after a flush sees the flushed row.
- The call to the chat completion is a parameter. It returns the raw text, or `None` when the call raises. `chat_complete`'s temperature and token limits are not modelled.
- The f-string rendering of the preferences in the system prompt is a parameter `render`.
- For `/plan`, the prompt text built from `protein`, `fat`, `carbs` and `prefs` is not modelled; only the completion's reply is.
- `json.loads` of the completion's reply is a parameter that returns `None` when parsing fails.
- Preferences are stored as a parsed JSON value: `json.dumps` followed by `json.loads` is taken to return the same value.
- JSON `NaN` and `Infinity` are not modelled, so `int()` of them (which raises) is not modelled either.
- Base-10 `int()` of strings with non-ASCII Unicode digits is not modelled.
- The 4300-digit limit is CPython's default. Changing it with `sys.set_int_max_str_digits` or `PYTHONINTMAXSTRDIGITS` is not modelled.
- PyText.IntToString: `str(n)` raising `ValueError` beyond 4300 digits is not modelled. Its only use renders a meal's position in the list, far below the limit.
- Request bodies that are not JSON objects, and request fields such as `password`, `title` and `message` that are not strings, are not modelled.
- Timestamps are ticks of a counter, not `datetime.utcnow()`. Every insert and every change of `updated_at` advances it. Storing preferences sets no timestamp, so it leaves the counter alone. Two conversations therefore never share an `updated_at`, and the database's order for ties is not modelled.
- Configuration and start-up are not modelled. The only part kept is that `APP_PASSWORD` is non-empty. `SECRET_KEY`, the OpenAI key and `DATABASE_URL` have no counterpart.
- The `String(200)` limit on titles is not modelled. SQLite does not enforce it.
- The `/health` route is not modelled; it only answers a constant.
- `/analyze_meal`, `/estimate_macros` and `/suggest_swaps` are not modelled. Each only forwards a prompt to the completion and returns its text.
- Ids come from a per-table counter, which a rolled-back turn does not advance. SQLite's own rowid allocation is not modelled.
- Each route runs as one atomic step on the database: concurrent requests are not modelled. Interleavings the source allows are therefore missing. Two first logins can both find no user and both insert one. Two turns on one conversation can overlap between the flush of the user's message and the commit, which spans the completion call, so their messages need not come in user/assistant pairs.
- Slicing a `dict` is recorded as `TypeError`, its class before Python 3.12; from 3.12 on it raises `KeyError`. Either way the route answers 500.
